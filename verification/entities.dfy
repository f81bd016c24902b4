/**
 * The entities of the game: bullets and enemies, which the game keeps by value in its
 * vectors, and the single player object. Texture sizes come in as parameters; the angle
 * computed by atan2f each update is represented by its unit heading (cos, sin).
 */
module Entities {
  import opened Geometry
  import Random

  const WindowWidth: real := 1000.0
  const WindowHeight: real := 800.0

  /** velocityOriginal of Player, Enemy and Bullet (both components are equal). */
  const PlayerSpeed: real := 8.0
  const EnemySpeed: real := 8.0
  const BulletSpeed: real := 15.0

  /** The player only drives when the cursor is more than this far away on some axis. */
  const DeadZone: real := 20.0
  /** Distance an enemy drives before it stops and starts firing. */
  const HoldDistance: real := 150.0
  /** Range of the reload time drawn for each enemy. */
  const MinReload: real := 0.5
  const MaxReload: real := 1.5

  const EnemyStartHp: int := 10
  const PlayerFullHp: int := 100

  /** Gap between a shooter's half-width and the spawn point of its bullet. */
  const PlayerMuzzleGap: real := 8.0
  const EnemyMuzzleGap: real := 25.0

  // ---------------------------------------------------------------------------------------
  // Bullet

  /**
   * A bullet. Its rotation never changes, so it is kept as the heading; `size` is the bullet
   * texture's size and the origin is half of it.
   */
  datatype Bullet = Bullet(
    position: Vec2,
    heading: Vec2,
    size: Vec2,
    corners: Corners,
    isPlayerBullet: bool,
    shouldBeDestroyed: bool)
  {
    function Origin(): Vec2 { Scale(size, 0.5) }

    /**
     * Bullet::update: the corners are taken at the current position, then the bullet moves
     * by BulletSpeed along its heading. Nothing else changes.
     */
    function Update(): (b: Bullet)
      ensures b.position == Add(position, Scale(heading, BulletSpeed))
      ensures b.corners == OrientedCorners(position, Origin(), heading)
      ensures b == this.(position := b.position, corners := b.corners)
    {
      this.(corners := OrientedCorners(position, Origin(), heading),
            position := Add(position, Scale(heading, BulletSpeed)))
    }

    /**
     * The off-screen test of Game::checkForRemoval. It is asymmetric: the right, left and
     * bottom edges are compared with the centre plus half the size, the top edge with the
     * centre plus the whole height.
     */
    predicate IsOffScreen() {
      position.x + size.x / 2.0 > WindowWidth || position.x + size.x / 2.0 < 0.0 ||
      position.y + size.y / 2.0 > WindowHeight || position.y + size.y < 0.0
    }
  }

  /** Bullet's constructor: an unmarked bullet; its corners are set by its first update. */
  function NewBullet(heading: Vec2, position: Vec2, isPlayerBullet: bool, size: Vec2): (b: Bullet)
    ensures b.position == position && b.heading == heading && b.size == size
    ensures b.isPlayerBullet == isPlayerBullet && !b.shouldBeDestroyed
  {
    Bullet(position, heading, size, NoCorners, isPlayerBullet, false)
  }

  /** n updates of one bullet. */
  function BulletSteps(b: Bullet, n: nat): Bullet {
    if n == 0 then b else BulletSteps(b, n - 1).Update()
  }

  /**
   * A bullet travels in a straight line: after n updates it is n * BulletSpeed along its
   * heading from where it started, and only its position and corners have changed.
   */
  lemma {:induction false} BulletStraightLine(b: Bullet, n: nat)
    ensures BulletSteps(b, n).position == Add(b.position, Scale(b.heading, n as real * BulletSpeed))
    ensures BulletSteps(b, n) == b.(position := BulletSteps(b, n).position, corners := BulletSteps(b, n).corners)
  {
    if n > 0 {
      BulletStraightLine(b, n - 1);
      assert (n - 1) as real * BulletSpeed + BulletSpeed == n as real * BulletSpeed;
    }
  }

  /**
   * Because the top edge uses the whole height, a bullet whose centre is above the playfield
   * by less than its height but more than half of it is not off screen, whereas the same gap
   * beyond the bottom edge is.
   */
  lemma TopEdgeAsymmetry(b: Bullet)
    requires b.size.y > 0.0 && 0.0 <= b.position.x + b.size.x / 2.0 <= WindowWidth
    requires -b.size.y <= b.position.y < -b.size.y / 2.0
    ensures !b.IsOffScreen()
    ensures b.(position := Vec2(b.position.x, WindowHeight - b.position.y)).IsOffScreen()
  {
  }

  // ---------------------------------------------------------------------------------------
  // Enemy

  /**
   * An enemy tank. `direction` points from the enemy to the player at its last update and
   * `heading` is the unit vector of that direction (its rotation); `size` is the enemy
   * texture's size.
   */
  datatype Enemy = Enemy(
    position: Vec2,
    direction: Vec2,
    heading: Vec2,
    size: Vec2,
    reloadTime: real,
    movedDistance: real,
    corners: Corners,
    lastUpdatedTime: real,
    hp: int,
    shouldSpawnBullet: bool,
    hasReachedPosition: bool,
    shouldBeDestroyed: bool)
  {
    function Origin(): Vec2 { Scale(size, 0.5) }

    /**
     * What holds of every enemy between updates: it is holding exactly when it has driven
     * HoldDistance, it only wants to fire while holding, its reload time was drawn from
     * [0.5, 1.5], and it is marked for removal exactly when its hp is used up.
     */
    predicate Valid() {
      IsHeadingOf(heading, direction) &&
      MinReload <= reloadTime <= MaxReload &&
      0.0 <= movedDistance &&
      (hasReachedPosition <==> movedDistance >= HoldDistance) &&
      (shouldSpawnBullet ==> hasReachedPosition) &&
      hp <= EnemyStartHp &&
      (shouldBeDestroyed <==> hp <= 0)
    }

    /**
     * Enemy::update at time `now`, with `target` the player's position at that moment and `h`
     * the heading toward it. While approaching, the enemy moves EnemySpeed along the heading
     * and adds the length of that step (EnemySpeed, the heading being a unit vector) to
     * movedDistance, holding from the first update at which that reaches HoldDistance. While
     * holding it stays put and asks to fire, restarting its reload, whenever `reloadTime`
     * has passed since it last did. The corners follow the new position.
     */
    function Update(target: Vec2, h: Vec2, now: real): (e: Enemy)
      requires IsHeadingOf(h, Sub(target, position))
      ensures e.direction == Sub(target, position) && e.heading == h
      ensures hasReachedPosition ==>
        e.hasReachedPosition && e.position == position && e.movedDistance == movedDistance
      ensures hasReachedPosition ==>
        var due := now - lastUpdatedTime >= reloadTime;
        (e.shouldSpawnBullet <==> shouldSpawnBullet || due) &&
        e.lastUpdatedTime == (if due then now else lastUpdatedTime)
      ensures !hasReachedPosition ==>
        e.position == Add(position, Scale(h, EnemySpeed)) &&
        e.movedDistance == movedDistance + EnemySpeed &&
        (e.hasReachedPosition <==> e.movedDistance >= HoldDistance) &&
        e.shouldSpawnBullet == shouldSpawnBullet && e.lastUpdatedTime == lastUpdatedTime
      ensures e.corners == OrientedCorners(e.position, Origin(), h)
      ensures e.hp == hp && e.shouldBeDestroyed == shouldBeDestroyed
      ensures e.size == size && e.reloadTime == reloadTime
      ensures Valid() ==> e.Valid()
    {
      var direction' := Sub(target, position);
      var moved :=
        if hasReachedPosition then
          var due := now - lastUpdatedTime >= reloadTime;
          this.(shouldSpawnBullet := if due then true else shouldSpawnBullet,
                lastUpdatedTime := if due then now else lastUpdatedTime)
        else
          var distance := movedDistance + EnemySpeed;
          this.(position := Add(position, Scale(h, EnemySpeed)),
                movedDistance := distance,
                hasReachedPosition := if distance >= HoldDistance then true else hasReachedPosition);
      moved.(direction := direction', heading := h,
             corners := OrientedCorners(moved.position, Origin(), h))
    }
  }

  /**
   * Enemy's constructor: a fresh enemy at `position` with 10 hp, not yet holding, whose
   * reload time is GetRandomFloat(0.5, 1.5) for the raylib draw `draw`.
   */
  function NewEnemy(position: Vec2, size: Vec2, draw: int): (e: Enemy)
    requires 0 <= draw <= Random.DrawRange
    ensures e.Valid()
    ensures e.position == position && e.size == size && e.hp == EnemyStartHp
    ensures e.movedDistance == 0.0 && !e.hasReachedPosition && e.lastUpdatedTime == 0.0
    ensures !e.shouldSpawnBullet && !e.shouldBeDestroyed
  {
    Enemy(position, Zero, Vec2(1.0, 0.0), size, Random.GetRandomFloat(MinReload, MaxReload, draw),
          0.0, NoCorners, 0.0, EnemyStartHp, false, false, false)
  }

  /** The bullet an enemy fires: from its muzzle, along its heading. */
  function EnemyShot(e: Enemy, bulletSize: Vec2): (b: Bullet)
    requires e.Valid()
    ensures !b.isPlayerBullet && !b.shouldBeDestroyed && b.heading == e.heading
    ensures e.direction != Zero ==>
      b.position == Add(e.position, Scale(e.heading, e.size.x / 2.0 + EnemyMuzzleGap))
  {
    var forward := Normalize(e.direction, e.heading);
    NewBullet(e.heading, Add(e.position, Scale(forward, e.size.x / 2.0 + EnemyMuzzleGap)), false, bulletSize)
  }

  /** A heading oracle: `aim(d)` is the heading of d, for every d. */
  ghost predicate IsAim(aim: Vec2 -> Vec2) {
    forall d :: IsHeadingOf(aim(d), d)
  }

  /** What one enemy update reads: the player's position and the time. */
  datatype EnemyTick = EnemyTick(target: Vec2, now: real)

  /** Successive updates of one enemy, the heading of each taken toward that tick's target. */
  function EnemyRun(e: Enemy, ticks: seq<EnemyTick>, aim: Vec2 -> Vec2): Enemy
    requires IsAim(aim)
    decreases |ticks|
  {
    if ticks == [] then e
    else
      var d := Sub(ticks[0].target, e.position);
      EnemyRun(e.Update(ticks[0].target, aim(d), ticks[0].now), ticks[1..], aim)
  }

  /** Once an enemy holds, it holds for good, and neither its position nor movedDistance change again. */
  lemma {:induction false} HoldingIsFinal(e: Enemy, ticks: seq<EnemyTick>, aim: Vec2 -> Vec2)
    requires IsAim(aim) && e.hasReachedPosition
    ensures var r := EnemyRun(e, ticks, aim);
      r.hasReachedPosition && r.position == e.position && r.movedDistance == e.movedDistance
    decreases |ticks|
  {
    if ticks != [] {
      var d := Sub(ticks[0].target, e.position);
      HoldingIsFinal(e.Update(ticks[0].target, aim(d), ticks[0].now), ticks[1..], aim);
    }
  }

  /**
   * An approaching enemy holds after n updates exactly when its distance so far plus n steps
   * of EnemySpeed reaches HoldDistance.
   */
  lemma {:induction false} HoldsAfter(e: Enemy, ticks: seq<EnemyTick>, aim: Vec2 -> Vec2)
    requires IsAim(aim) && e.Valid() && !e.hasReachedPosition
    ensures EnemyRun(e, ticks, aim).hasReachedPosition <==>
      e.movedDistance + |ticks| as real * EnemySpeed >= HoldDistance
    decreases |ticks|
  {
    if ticks != [] {
      var d := Sub(ticks[0].target, e.position);
      var e' := e.Update(ticks[0].target, aim(d), ticks[0].now);
      assert e'.movedDistance == e.movedDistance + EnemySpeed;
      assert e.movedDistance + |ticks| as real * EnemySpeed
          == e'.movedDistance + |ticks[1..]| as real * EnemySpeed;
      if e'.hasReachedPosition {
        HoldingIsFinal(e', ticks[1..], aim);
        assert |ticks[1..]| as real * EnemySpeed >= 0.0;
      } else {
        HoldsAfter(e', ticks[1..], aim);
      }
    }
  }

  /** A freshly spawned enemy approaches for 18 updates and holds from its 19th on (18 * 8 < 150 <= 19 * 8). */
  lemma FreshEnemyHoldsFromNineteenthUpdate(position: Vec2, size: Vec2, draw: int,
                                             ticks: seq<EnemyTick>, aim: Vec2 -> Vec2)
    requires 0 <= draw <= Random.DrawRange && IsAim(aim)
    ensures EnemyRun(NewEnemy(position, size, draw), ticks, aim).hasReachedPosition <==> |ticks| >= 19
  {
    HoldsAfter(NewEnemy(position, size, draw), ticks, aim);
  }

  // ---------------------------------------------------------------------------------------
  // Player

  /** The player's tank: a single object updated in place. `size` is the tank texture's size. */
  /**
   * The bullet a player of the given size fires from `position`, facing `direction` with
   * heading `heading`: it leaves the muzzle, size.x / 2 + 8 ahead of the centre along the
   * direction, and flies along the heading.
   */
  function MuzzleShot(position: Vec2, direction: Vec2, heading: Vec2, size: Vec2, bulletSize: Vec2): (b: Bullet)
    requires IsHeadingOf(heading, direction)
    ensures b.isPlayerBullet && !b.shouldBeDestroyed && b.heading == heading
    ensures direction != Zero ==>
      b.position == Add(position, Scale(heading, size.x / 2.0 + PlayerMuzzleGap))
  {
    var forward := Normalize(direction, heading);
    NewBullet(heading, Add(position, Scale(forward, size.x / 2.0 + PlayerMuzzleGap)), true, bulletSize)
  }

  class Player {
    var position: Vec2
    const size: Vec2
    var direction: Vec2
    var heading: Vec2
    var corners: Corners
    var hp: int
    var shouldSpawnBullet: bool
    var isDead: bool

    function Origin(): Vec2 { Scale(size, 0.5) }

    /** Player's constructor: in the middle of the window, at full health. */
    constructor (size: Vec2)
      ensures this.size == size && position == Vec2(WindowWidth / 2.0, WindowHeight / 2.0)
      ensures IsHeadingOf(heading, direction)
      ensures hp == PlayerFullHp && !shouldSpawnBullet && !isDead
    {
      this.size := size;
      position := Vec2(WindowWidth / 2.0, WindowHeight / 2.0);
      direction := Zero;
      heading := Vec2(1.0, 0.0);
      corners := NoCorners;
      hp := PlayerFullHp;
      shouldSpawnBullet := false;
      isDead := false;
    }

    /**
     * Player::update with the cursor at `mouse` and `h` the heading toward it. The corners
     * are taken at the current position; a press of space or of the left button this frame
     * asks for a bullet; with W held and the cursor outside the dead zone the tank moves
     * PlayerSpeed along the heading. Health is left alone.
     */
    method Update(mouse: Vec2, spacePressed: bool, leftClicked: bool, forwardHeld: bool, h: Vec2)
      requires IsHeadingOf(h, Sub(mouse, position))
      modifies this
      ensures direction == Sub(mouse, old(position)) && heading == h
      ensures IsHeadingOf(heading, direction)
      ensures corners == OrientedCorners(old(position), Origin(), h)
      ensures shouldSpawnBullet == (old(shouldSpawnBullet) || spacePressed || leftClicked)
      ensures position ==
        if forwardHeld && (Abs(direction.x) > DeadZone || Abs(direction.y) > DeadZone)
        then Add(old(position), Scale(h, PlayerSpeed)) else old(position)
      ensures hp == old(hp) && isDead == old(isDead)
    {
      direction := Sub(mouse, position);
      heading := h;
      corners := OrientedCorners(position, Origin(), h);
      if spacePressed || leftClicked {
        shouldSpawnBullet := true;
      }
      if forwardHeld && (Abs(direction.x) > DeadZone || Abs(direction.y) > DeadZone) {
        position := Add(position, Scale(h, PlayerSpeed));
      }
    }

    /** The bullet the player fires: from the muzzle, along the current heading. */
    function Shot(bulletSize: Vec2): (b: Bullet)
      requires IsHeadingOf(heading, direction)
      reads this`position, this`direction, this`heading
      ensures b.isPlayerBullet && !b.shouldBeDestroyed && b.heading == heading
      ensures direction != Zero ==>
        b.position == Add(position, Scale(heading, size.x / 2.0 + PlayerMuzzleGap))
    {
      MuzzleShot(position, direction, heading, size, bulletSize)
    }
  }
}
