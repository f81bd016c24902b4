/**
 * The Game object: the title screen, the pause button, the waves of eight enemy tanks and the
 * per-frame update that drives the player, the enemies and the bullets. One call of Update is
 * one frame; everything the frame reads from raylib (the time, the cursor, the buttons, the
 * window state, atan2 and the random draws) arrives in an Input.
 */
module Game {
  import opened Geometry
  import opened Collision
  import opened Entities
  import opened Resolution
  import opened Compaction
  import opened Scoring
  import Random

  /** Seconds between clearing a wave and the next one appearing. */
  const DelayBetweenWaves: real := 1.0
  /** Enemies per wave, one at each spawn position. */
  const SpawnNumber: nat := 8

  /** Where the enemies of a wave appear: two on each edge of the window. */
  const SpawnPositions: seq<Vec2> := [
    Vec2(0.0, 200.0), Vec2(0.0, WindowHeight - 200.0),
    Vec2(200.0, WindowHeight), Vec2(WindowWidth - 200.0, WindowHeight),
    Vec2(WindowWidth, 200.0), Vec2(WindowWidth, WindowHeight - 200.0),
    Vec2(200.0, 0.0), Vec2(WindowWidth - 200.0, 0.0)]

  /** The sizes of the textures the game objects take their sizes from. */
  datatype Textures = Textures(tank: Vec2, enemyTank: Vec2, bullet: Vec2, start: Vec2, pause: Vec2)

  /**
   * What one frame reads: GetTime, the cursor, a left click and a space press this frame,
   * W held, the window's focus and minimised state, the heading oracle standing for atan2,
   * the reload draws of a wave's eight enemies, and the damage rolls of the collisions.
   */
  datatype Input = Input(
    now: real,
    mouse: Vec2,
    leftClicked: bool,
    spacePressed: bool,
    forwardHeld: bool,
    focused: bool,
    minimized: bool,
    aim: Vec2 -> Vec2,
    reloadDraws: seq<int>,
    enemyDamage: (nat, nat) -> int,
    playerDamage: nat -> int)

  predicate ValidDraws(draws: seq<int>) {
    |draws| == SpawnNumber && forall i | 0 <= i < |draws| :: 0 <= draws[i] <= Random.DrawRange
  }

  /** Everything raylib could hand a frame: a true heading, and draws and rolls in their ranges. */
  ghost predicate ValidInput(inp: Input) {
    IsAim(inp.aim) && ValidDraws(inp.reloadDraws) &&
    EnemyDamageRolls(inp.enemyDamage) && PlayerDamageRolls(inp.playerDamage)
  }

  /** A fresh wave: enemy i at spawn position i, each with its own reload draw. */
  function Wave(enemySize: Vec2, draws: seq<int>): (w: seq<Enemy>)
    requires ValidDraws(draws)
    ensures |w| == SpawnNumber
    ensures forall i | 0 <= i < |w| ::
      w[i].Valid() && w[i].position == SpawnPositions[i] && w[i].size == enemySize &&
      w[i].hp == EnemyStartHp && !w[i].hasReachedPosition && !w[i].shouldBeDestroyed
  {
    seq(SpawnNumber, i requires 0 <= i < SpawnNumber => NewEnemy(SpawnPositions[i], enemySize, draws[i]))
  }

  /** The bullets fired by the enemies that asked to fire, in the order of the enemies. */
  function EnemyShots(es: seq<Enemy>, bulletSize: Vec2): (bs: seq<Bullet>)
    requires forall i | 0 <= i < |es| :: es[i].Valid()
    ensures |bs| <= |es|
    ensures forall j | 0 <= j < |bs| :: !bs[j].isPlayerBullet && !bs[j].shouldBeDestroyed
    decreases |es|
  {
    if es == [] then []
    else
      var last := es[|es| - 1];
      EnemyShots(es[..|es| - 1], bulletSize) + (if last.shouldSpawnBullet then [EnemyShot(last, bulletSize)] else [])
  }

  /** Which enemies asked to fire. */
  function Firing(es: seq<Enemy>): (mask: seq<bool>)
    ensures |mask| == |es| && forall i | 0 <= i < |es| :: mask[i] == es[i].shouldSpawnBullet
  {
    seq(|es|, i requires 0 <= i < |es| => es[i].shouldSpawnBullet)
  }

  /** The shot every enemy would fire. */
  function Shots(es: seq<Enemy>, bulletSize: Vec2): (bs: seq<Bullet>)
    requires forall i | 0 <= i < |es| :: es[i].Valid()
    ensures |bs| == |es| && forall i | 0 <= i < |es| :: bs[i] == EnemyShot(es[i], bulletSize)
  {
    seq(|es|, i requires 0 <= i < |es| => EnemyShot(es[i], bulletSize))
  }

  /**
   * Exactly the enemies that asked to fire do, one EnemyShot each, in the order of the
   * enemies: the enemy shots are the selection of the firing enemies' shots.
   */
  lemma {:induction false} EnemyShotsSelects(es: seq<Enemy>, bulletSize: Vec2)
    requires forall i | 0 <= i < |es| :: es[i].Valid()
    ensures EnemyShots(es, bulletSize) == Select(Shots(es, bulletSize), Firing(es))
    decreases |es|
  {
    if es != [] {
      var init, last := es[..|es| - 1], es[|es| - 1];
      EnemyShotsSelects(init, bulletSize);
      assert Shots(es, bulletSize) == Shots(init, bulletSize) + [EnemyShot(last, bulletSize)];
      assert Firing(es) == Firing(init) + [last.shouldSpawnBullet];
      SelectAppend(Shots(init, bulletSize), Firing(init), EnemyShot(last, bulletSize), last.shouldSpawnBullet);
    }
  }

  /**
   * Where Player::update takes the tank from `position`: PlayerSpeed along the heading toward
   * the cursor when W is held and the cursor is outside the dead zone, nowhere otherwise.
   */
  function DriveStep(position: Vec2, inp: Input): Vec2
    requires IsAim(inp.aim)
  {
    var d := Sub(inp.mouse, position);
    if inp.forwardHeld && (Abs(d.x) > DeadZone || Abs(d.y) > DeadZone)
    then Add(position, Scale(inp.aim(d), PlayerSpeed)) else position
  }

  /** The enemies after the firing and moving loops: the request to fire is cleared, then one Enemy update toward `target`. */
  function MarchedEnemies(es: seq<Enemy>, target: Vec2, aim: Vec2 -> Vec2, now: real): (r: seq<Enemy>)
    requires IsAim(aim)
    ensures |r| == |es|
  {
    seq(|es|, i requires 0 <= i < |es| =>
      es[i].(shouldSpawnBullet := false).Update(target, aim(Sub(target, es[i].position)), now))
  }

  /** A bullet after Bullet::update and checkForRemoval: one step, then marked if off screen. */
  function Flown(b: Bullet): Bullet {
    var m := b.Update();
    m.(shouldBeDestroyed := m.shouldBeDestroyed || m.IsOffScreen())
  }

  function FlownBullets(bs: seq<Bullet>): (r: seq<Bullet>)
    ensures |r| == |bs|
  {
    seq(|bs|, j requires 0 <= j < |bs| => Flown(bs[j]))
  }

  /** Every enemy after the inner loop of checkForCollisions over the bullets bs. */
  function EnemiesAfterHits(es: seq<Enemy>, bs: seq<Bullet>, dmg: (nat, nat) -> int): (r: seq<Enemy>)
    ensures |r| == |es|
  {
    seq(|es|, i requires 0 <= i < |es| => EnemyAfterHits(es[i], i, bs, dmg))
  }

  /** Every bullet after both loops of checkForCollisions. */
  function ResolvedBullets(bs: seq<Bullet>, es: seq<Enemy>, playerCorners: Corners): (r: seq<Bullet>)
    ensures |r| == |bs|
  {
    seq(|bs|, j requires 0 <= j < |bs| => ResolvedBullet(bs[j], es, playerCorners))
  }

  /** The enemies, the bullets and the player's health. */
  datatype Field = Field(enemies: seq<Enemy>, bullets: seq<Bullet>, health: Health)

  /**
   * The second half of a tick on a living player with `hp`, standing at `target` with the
   * given corners: the enemies fire, the bullets and the enemies move, the bullets off the
   * screen are marked, hits are resolved and what is marked is removed. No marked bullet is
   * left and no enemy is added.
   */
  function WorldStep(es: seq<Enemy>, bs: seq<Bullet>, hp: int, target: Vec2, corners: Corners,
                     inp: Input, bulletSize: Vec2): (r: Field)
    requires IsAim(inp.aim) && forall i | 0 <= i < |es| :: es[i].Valid()
    ensures |r.enemies| <= |es|
    ensures forall j | 0 <= j < |r.bullets| :: !r.bullets[j].shouldBeDestroyed
    ensures es == [] ==> r.enemies == []
    ensures es == [] && bs == [] ==> r == Field([], [], Health(hp, false))
  {
    var moved := MarchedEnemies(es, target, inp.aim, inp.now);
    var flown := FlownBullets(bs + EnemyShots(es, bulletSize));
    Field(SkipErase(EnemiesAfterHits(moved, flown, inp.enemyDamage)),
          UnmarkedBullets(ResolvedBullets(flown, moved, corners)),
          PlayerAfterHits(Health(hp, false), corners, flown, inp.playerDamage))
  }

  /** The enemies the erase loop keeps are enemies it was given, so their invariant and size survive. */
  lemma SkipEraseKeepsEnemies(es: seq<Enemy>, size: Vec2)
    requires forall i | 0 <= i < |es| :: es[i].Valid() && es[i].size == size
    ensures forall i | 0 <= i < |SkipErase(es)| :: SkipErase(es)[i].Valid() && SkipErase(es)[i].size == size
  {
    forall i | 0 <= i < |SkipErase(es)|
      ensures SkipErase(es)[i].Valid() && SkipErase(es)[i].size == size
    {
      assert SkipErase(es)[i] in es;
    }
  }

  /** The game and its player as a tick reads and writes them, as values. */
  datatype Snapshot = Snapshot(
    enemies: seq<Enemy>,
    bullets: seq<Bullet>,
    scores: seq<int>,
    highScore: int,
    gamesPlayed: int,
    wavesDefeated: int,
    shouldSpawnTanks: bool,
    lastUpdateTime: real,
    isInTitleScreen: bool,
    position: Vec2,
    direction: Vec2,
    heading: Vec2,
    corners: Corners,
    hp: int,
    isDead: bool)
  {
    /** This frame starts a wave: the field is clear and no wave is pending. */
    predicate WaveStarts() {
      enemies == [] && !shouldSpawnTanks
    }

    /** This frame spawns the pending wave: its delay is over. */
    predicate WaveSpawns(now: real) {
      shouldSpawnTanks && now - lastUpdateTime >= DelayBetweenWaves
    }
  }

  class Game {
    const player: Player
    var enemies: seq<Enemy>
    var bullets: seq<Bullet>
    var scores: seq<int>
    var lastUpdateTime: real
    var wavesDefeated: int
    var gamesPlayed: int
    var highScore: int
    const startButtonArea: Rectangle
    const pausePlayButtonArea: Rectangle
    /** The sizes of the enemy and bullet textures, which every enemy and bullet takes. */
    const enemySize: Vec2
    const bulletSize: Vec2
    var shouldSpawnTanks: bool
    var isPaused: bool
    var isInTitleScreen: bool

    /**
     * What holds between frames. The player has at most full health and is dead once it has
     * none, and no bullet it asked for is pending. Every recorded game has a score and the
     * high score is their fold. The title screen shows an empty field with no waves defeated.
     * A wave is only pending while the field is clear, so there are never more than eight
     * enemies. Every bullet marked for removal has been removed; enemies need not have been.
     */
    ghost predicate Valid()
      reads this`enemies, this`bullets, this`scores, this`highScore, this`gamesPlayed,
            this`wavesDefeated, this`shouldSpawnTanks, this`isInTitleScreen,
            player`hp, player`isDead, player`shouldSpawnBullet, player`heading, player`direction
    {
      0 <= player.hp <= PlayerFullHp && (player.hp == 0 ==> player.isDead) &&
      !player.shouldSpawnBullet && IsHeadingOf(player.heading, player.direction) &&
      wavesDefeated >= -1 &&
      gamesPlayed == |scores| && highScore == HighestScore(scores) &&
      (isInTitleScreen ==>
        wavesDefeated == -1 && enemies == [] && bullets == [] &&
        player.hp == PlayerFullHp && !player.isDead) &&
      (shouldSpawnTanks ==> enemies == []) &&
      |enemies| <= SpawnNumber &&
      (forall i | 0 <= i < |enemies| :: enemies[i].Valid() && enemies[i].size == enemySize) &&
      (forall j | 0 <= j < |bullets| :: !bullets[j].shouldBeDestroyed)
    }

    function State(): Snapshot
      reads this`enemies, this`bullets, this`scores, this`highScore, this`gamesPlayed,
            this`wavesDefeated, this`shouldSpawnTanks, this`lastUpdateTime, this`isInTitleScreen,
            player`position, player`direction, player`heading, player`corners, player`hp, player`isDead
    {
      Snapshot(enemies, bullets, scores, highScore, gamesPlayed, wavesDefeated, shouldSpawnTanks,
               lastUpdateTime, isInTitleScreen, player.position, player.direction, player.heading,
               player.corners, player.hp, player.isDead)
    }

    /** In `now`, the player has taken this frame's Player::update from `from`. */
    predicate PlayerMovedFrom(from: Vec2, now: Snapshot, inp: Input)
      requires IsAim(inp.aim)
    {
      var d := Sub(inp.mouse, from);
      now.direction == d && now.heading == inp.aim(d) &&
      now.corners == OrientedCorners(from, player.Origin(), inp.aim(d)) &&
      now.position == DriveStep(from, inp)
    }

    /**
     * The bookkeeping of a tick, from `before` to `after`. The title screen returns exactly
     * when the player was dead at the start of the tick, and only then is a score recorded:
     * the waves defeated, counting a wave started in the same tick. The player has moved. A
     * wave starts when the field was clear and none was pending, and a pending wave is
     * spawned once its delay is over.
     */
    predicate Restarted(before: Snapshot, after: Snapshot, inp: Input)
      requires IsAim(inp.aim)
    {
      var started, spawned := before.WaveStarts(), before.WaveSpawns(inp.now);
      (after.isInTitleScreen <==> before.isDead) &&
      PlayerMovedFrom(before.position, after, inp) &&
      (after.shouldSpawnTanks <==> started || (before.shouldSpawnTanks && !spawned)) &&
      after.lastUpdateTime == (if started then inp.now else before.lastUpdateTime) &&
      (before.isDead ==>
        var score := before.wavesDefeated + (if started then 1 else 0);
        after.scores == before.scores + [score] && after.highScore == Max(before.highScore, score) &&
        after.gamesPlayed == before.gamesPlayed + 1) &&
      (!before.isDead ==>
        after.scores == before.scores && after.highScore == before.highScore &&
        after.gamesPlayed == before.gamesPlayed &&
        after.wavesDefeated == before.wavesDefeated + (if started then 1 else 0))
    }

    /**
     * The field a living player fights on once the tick's bookkeeping is done: a spawned wave
     * replaces the enemies and clears the bullets, a started wave restores the player's hp,
     * and the shot of the moved player, if any, is the last bullet.
     */
    function Armed(before: Snapshot, after: Snapshot, inp: Input): (f: Field)
      requires ValidDraws(inp.reloadDraws) && IsHeadingOf(after.heading, after.direction)
      ensures before.WaveSpawns(inp.now) ==> |f.enemies| == SpawnNumber
      ensures |f.bullets| == (if before.WaveSpawns(inp.now) then 0 else |before.bullets|) +
                             (if inp.spacePressed || inp.leftClicked then 1 else 0)
      ensures !f.health.isDead
    {
      var started, spawned := before.WaveStarts(), before.WaveSpawns(inp.now);
      var shot := MuzzleShot(after.position, after.direction, after.heading, player.size, bulletSize);
      Field(if spawned then Wave(enemySize, inp.reloadDraws) else before.enemies,
            (if spawned then [] else before.bullets) +
              (if inp.spacePressed || inp.leftClicked then [shot] else []),
            Health(if started then PlayerFullHp else before.hp, false))
    }

    /**
     * What one tick does, from `before` to `after`: the bookkeeping, and for a living player
     * the enemies, the bullets and the health WorldStep computes from the armed field.
     */
    predicate Ticked(before: Snapshot, after: Snapshot, inp: Input)
      requires forall i | 0 <= i < |before.enemies| :: before.enemies[i].Valid()
      requires ValidInput(inp) && IsHeadingOf(after.heading, after.direction)
    {
      Restarted(before, after, inp) &&
      (!before.isDead ==>
        var armed := Armed(before, after, inp);
        Field(after.enemies, after.bullets, Health(after.hp, after.isDead)) ==
          WorldStep(armed.enemies, armed.bullets, armed.health.hp, after.position, after.corners, inp, bulletSize))
    }

    /** Game's constructor: the title screen, with the buttons placed from their textures. */
    constructor (textures: Textures)
      ensures Valid() && fresh(player)
      ensures isInTitleScreen && !isPaused && !shouldSpawnTanks
      ensures wavesDefeated == -1 && gamesPlayed == 0 && highScore == 0 && scores == []
      ensures enemies == [] && bullets == [] && lastUpdateTime == 0.0
      ensures player.size == textures.tank && enemySize == textures.enemyTank && bulletSize == textures.bullet
      ensures startButtonArea == Rectangle((WindowWidth - textures.start.x) / 2.0, 550.0, textures.start.x, textures.start.y)
      ensures pausePlayButtonArea == Rectangle(WindowWidth - 200.0, 20.0, textures.pause.x, textures.pause.y)
    {
      player := new Player(textures.tank);
      enemySize := textures.enemyTank;
      bulletSize := textures.bullet;
      startButtonArea := Rectangle((WindowWidth - textures.start.x) / 2.0, 550.0, textures.start.x, textures.start.y);
      pausePlayButtonArea := Rectangle(WindowWidth - 200.0, 20.0, textures.pause.x, textures.pause.y);
      enemies := [];
      bullets := [];
      scores := [];
      lastUpdateTime := 0.0;
      wavesDefeated := -1;
      gamesPlayed := 0;
      highScore := 0;
      shouldSpawnTanks := false;
      isPaused := false;
      isInTitleScreen := true;
    }

    /**
     * Game::update, one frame. On the title screen a left click on the start button starts
     * play. Otherwise, unless paused, the world advances one tick; then a left click on the
     * pause button toggles the pause. Losing focus or minimising the window always pauses.
     */
    method Update(inp: Input)
      requires Valid() && ValidInput(inp)
      modifies this, player
      ensures Valid()
      ensures old(isInTitleScreen) ==>
        (isInTitleScreen <==> !(PointInRect(inp.mouse, startButtonArea) && inp.leftClicked)) &&
        enemies == old(enemies) && bullets == old(bullets) && scores == old(scores) &&
        wavesDefeated == old(wavesDefeated) && shouldSpawnTanks == old(shouldSpawnTanks) &&
        lastUpdateTime == old(lastUpdateTime) && gamesPlayed == old(gamesPlayed) &&
        highScore == old(highScore) && unchanged(player)
      ensures !old(isInTitleScreen) && old(isPaused) ==>
        !isInTitleScreen && enemies == old(enemies) && bullets == old(bullets) &&
        scores == old(scores) && wavesDefeated == old(wavesDefeated) &&
        shouldSpawnTanks == old(shouldSpawnTanks) && lastUpdateTime == old(lastUpdateTime) &&
        gamesPlayed == old(gamesPlayed) && highScore == old(highScore) && unchanged(player)
      ensures !old(isInTitleScreen) && !old(isPaused) ==> Ticked(old(State()), State(), inp)
      ensures !inp.focused || inp.minimized ==> isPaused
      ensures inp.focused && !inp.minimized ==>
        isPaused == (if old(isInTitleScreen) then old(isPaused)
                     else old(isPaused) != (PointInRect(inp.mouse, pausePlayButtonArea) && inp.leftClicked))
    {
      if isInTitleScreen {
        if PointInRect(inp.mouse, startButtonArea) && inp.leftClicked {
          isInTitleScreen := false;
        }
      } else {
        Play(inp);
      }
      if !inp.focused || inp.minimized {
        isPaused := true;
      }
    }

    /**
     * The frame past the title screen: one tick unless paused, then a left click on the pause
     * button toggles the pause. A click that pauses comes after its tick; a click that
     * unpauses does not tick.
     */
    method Play(inp: Input)
      requires Valid() && ValidInput(inp) && !isInTitleScreen
      modifies this, player
      ensures Valid()
      ensures old(isPaused) ==>
        !isInTitleScreen && enemies == old(enemies) && bullets == old(bullets) &&
        scores == old(scores) && wavesDefeated == old(wavesDefeated) &&
        shouldSpawnTanks == old(shouldSpawnTanks) && lastUpdateTime == old(lastUpdateTime) &&
        gamesPlayed == old(gamesPlayed) && highScore == old(highScore) && unchanged(player)
      ensures !old(isPaused) ==> Ticked(old(State()), State(), inp)
      ensures isPaused == (old(isPaused) != (PointInRect(inp.mouse, pausePlayButtonArea) && inp.leftClicked))
    {
      if !isPaused {
        Tick(inp);
      }
      if PointInRect(inp.mouse, pausePlayButtonArea) && inp.leftClicked {
        isPaused := !isPaused;
      }
    }

    /**
     * The unpaused part of a frame, in the source's order: start or spawn a wave, move the
     * player and fire its bullet, end the game if the player died last frame, fire the
     * enemies' bullets, move the bullets and the enemies, mark what left the screen, resolve
     * collisions and remove what is marked. The game ends this frame exactly when the player
     * was dead, and only then is a score recorded.
     */
    method Tick(inp: Input)
      requires Valid() && ValidInput(inp) && !isInTitleScreen
      modifies this, player
      ensures Valid()
      ensures isPaused == old(isPaused)
      ensures Ticked(old(State()), State(), inp)
    {
      PrepareFrame(inp);
      AdvanceWorld(inp);
      assert Restarted(old(State()), State(), inp);
    }

    /**
     * The first half of a tick: the wave bookkeeping, the player's move and shot, and the end
     * of the game when the player died last frame.
     */
    method PrepareFrame(inp: Input)
      requires Valid() && ValidInput(inp) && !isInTitleScreen
      modifies this`wavesDefeated, this`shouldSpawnTanks, this`lastUpdateTime, this`enemies,
               this`bullets, this`scores, this`highScore, this`gamesPlayed, this`isInTitleScreen, player
      ensures Valid() && !player.isDead
      ensures Restarted(old(State()), State(), inp)
      ensures !old(player.isDead) ==>
        Field(enemies, bullets, Health(player.hp, player.isDead)) == Armed(old(State()), State(), inp)
    {
      StartFrame(inp);
      ResetAfterDeath();
      assert PlayerMovedFrom(old(player.position), State(), inp);
    }

    /** The wave bookkeeping, then the player's move and shot. */
    method StartFrame(inp: Input)
      requires Valid() && ValidInput(inp) && !isInTitleScreen
      modifies this`wavesDefeated, this`shouldSpawnTanks, this`lastUpdateTime, this`enemies,
               this`bullets, player
      ensures Valid() && player.isDead == old(player.isDead)
      ensures PlayerMovedFrom(old(player.position), State(), inp)
      ensures var started, spawned := old(State()).WaveStarts(), old(State()).WaveSpawns(inp.now);
        (shouldSpawnTanks <==> started || (old(shouldSpawnTanks) && !spawned)) &&
        lastUpdateTime == (if started then inp.now else old(lastUpdateTime)) &&
        wavesDefeated == old(wavesDefeated) + (if started then 1 else 0) &&
        player.hp == (if started then PlayerFullHp else old(player.hp)) &&
        enemies == (if spawned then Wave(enemySize, inp.reloadDraws) else old(enemies)) &&
        bullets == (if spawned then [] else old(bullets)) +
                     (if inp.spacePressed || inp.leftClicked then [player.Shot(bulletSize)] else [])
    {
      AdvanceWaves(inp.now, inp.reloadDraws);
      MovePlayer(inp);
    }

    /** Start a wave when the field is clear, and spawn a pending one when its delay is over. */
    method AdvanceWaves(now: real, draws: seq<int>)
      requires Valid() && ValidDraws(draws) && !isInTitleScreen
      modifies this`wavesDefeated, this`shouldSpawnTanks, this`lastUpdateTime, this`enemies,
               this`bullets, player`hp
      ensures Valid()
      ensures old(State()).WaveStarts() ==>
        player.hp == PlayerFullHp && wavesDefeated == old(wavesDefeated) + 1 && shouldSpawnTanks &&
        lastUpdateTime == now && enemies == old(enemies) && bullets == old(bullets)
      ensures old(State()).WaveSpawns(now) ==>
        player.hp == old(player.hp) && wavesDefeated == old(wavesDefeated) && !shouldSpawnTanks &&
        lastUpdateTime == old(lastUpdateTime) && enemies == Wave(enemySize, draws) && bullets == []
      ensures !old(State()).WaveStarts() && !old(State()).WaveSpawns(now) ==>
        player.hp == old(player.hp) && wavesDefeated == old(wavesDefeated) &&
        shouldSpawnTanks == old(shouldSpawnTanks) && lastUpdateTime == old(lastUpdateTime) &&
        enemies == old(enemies) && bullets == old(bullets)
    {
      StartWaveIfCleared(now);
      SpawnWaveIfDue(now, draws);
    }

    /** The player moves and its bullet, if it asked for one, is fired. */
    method MovePlayer(inp: Input)
      requires Valid() && IsAim(inp.aim) && !isInTitleScreen
      modifies this`bullets, player
      ensures Valid() && player.hp == old(player.hp) && player.isDead == old(player.isDead)
      ensures PlayerMovedFrom(old(player.position), State(), inp)
      ensures bullets == old(bullets) +
        (if inp.spacePressed || inp.leftClicked then [player.Shot(bulletSize)] else [])
    {
      player.Update(inp.mouse, inp.spacePressed, inp.leftClicked, inp.forwardHeld,
                    inp.aim(Sub(inp.mouse, player.position)));
      FirePlayerBullet();
    }

    /**
     * The second half of a tick: the enemies fire, everything moves, and what left the
     * screen or was hit is marked and removed.
     */
    method AdvanceWorld(inp: Input)
      requires Valid() && ValidInput(inp) && !player.isDead
      modifies this`enemies, this`bullets, player`hp, player`isDead
      ensures Field(enemies, bullets, Health(player.hp, player.isDead))
        == WorldStep(old(enemies), old(bullets), old(player.hp), player.position, player.corners, inp, bulletSize)
      ensures Valid()
    {
      MoveAndResolve(inp);
      ghost var marked := enemies;
      GarbageCollect();
      SkipEraseKeepsEnemies(marked, enemySize);
    }

    /** Everything of the second half of a tick before the marked entities are removed. */
    method MoveAndResolve(inp: Input)
      requires ValidInput(inp) && 0 < player.hp && !player.isDead
      requires forall i | 0 <= i < |enemies| :: enemies[i].Valid() && enemies[i].size == enemySize
      modifies this`enemies, this`bullets, player`hp, player`isDead
      ensures var moved := MarchedEnemies(old(enemies), player.position, inp.aim, inp.now);
        var flown := FlownBullets(old(bullets) + EnemyShots(old(enemies), bulletSize));
        enemies == EnemiesAfterHits(moved, flown, inp.enemyDamage) &&
        bullets == ResolvedBullets(flown, moved, player.corners) &&
        Health(player.hp, player.isDead) == PlayerAfterHits(Health(old(player.hp), false), player.corners, flown, inp.playerDamage)
      ensures forall i | 0 <= i < |enemies| :: enemies[i].Valid() && enemies[i].size == enemySize
      ensures 0 <= player.hp <= old(player.hp) && (player.hp == 0 ==> player.isDead)
    {
      MoveEverything(inp);
      ghost var moved := enemies;
      CheckForCollisions(inp.enemyDamage, inp.playerDamage);
      forall i | 0 <= i < |enemies|
        ensures enemies[i].size == enemySize
      {
        assert enemies[i].size == moved[i].size;
      }
    }

    /** The enemies fire, then the bullets and the enemies move and the lost bullets are marked. */
    method MoveEverything(inp: Input)
      requires ValidInput(inp)
      requires forall i | 0 <= i < |enemies| :: enemies[i].Valid() && enemies[i].size == enemySize
      modifies this`enemies, this`bullets
      ensures enemies == MarchedEnemies(old(enemies), player.position, inp.aim, inp.now)
      ensures bullets == FlownBullets(old(bullets) + EnemyShots(old(enemies), bulletSize))
      ensures forall i | 0 <= i < |enemies| :: enemies[i].Valid() && enemies[i].size == enemySize
    {
      FireEnemyBullets();
      ghost var fired := bullets;
      AdvanceBullets();
      AdvanceEnemies(inp.now, inp.aim);
      CheckForRemoval();
      assert bullets == FlownBullets(fired);
    }

    /** With the field clear and no wave pending, a new wave is due: full health, one more wave defeated. */
    method StartWaveIfCleared(now: real)
      modifies this`wavesDefeated, this`shouldSpawnTanks, this`lastUpdateTime, player`hp
      ensures old(enemies == [] && !shouldSpawnTanks) ==>
        player.hp == PlayerFullHp && wavesDefeated == old(wavesDefeated) + 1 &&
        shouldSpawnTanks && lastUpdateTime == now
      ensures !old(enemies == [] && !shouldSpawnTanks) ==>
        player.hp == old(player.hp) && wavesDefeated == old(wavesDefeated) &&
        shouldSpawnTanks == old(shouldSpawnTanks) && lastUpdateTime == old(lastUpdateTime)
    {
      if enemies == [] && !shouldSpawnTanks {
        player.hp := PlayerFullHp;
        wavesDefeated := wavesDefeated + 1;
        shouldSpawnTanks := true;
        lastUpdateTime := now;
      }
    }

    /** Once the delay has passed, the pending wave appears on a field cleared of bullets. */
    method SpawnWaveIfDue(now: real, draws: seq<int>)
      requires ValidDraws(draws)
      modifies this`enemies, this`bullets, this`shouldSpawnTanks
      ensures old(shouldSpawnTanks) && now - lastUpdateTime >= DelayBetweenWaves ==>
        enemies == old(enemies) + Wave(enemySize, draws) && bullets == [] && !shouldSpawnTanks
      ensures !(old(shouldSpawnTanks) && now - lastUpdateTime >= DelayBetweenWaves) ==>
        enemies == old(enemies) && bullets == old(bullets) && shouldSpawnTanks == old(shouldSpawnTanks)
    {
      if shouldSpawnTanks {
        var currentTime := now;
        if currentTime - lastUpdateTime >= DelayBetweenWaves {
          bullets := [];
          ghost var wave := Wave(enemySize, draws);
          for i := 0 to SpawnNumber
            invariant enemies == old(enemies) + wave[..i] && bullets == []
          {
            enemies := enemies + [NewEnemy(SpawnPositions[i], enemySize, draws[i])];
            assert wave[..i + 1] == wave[..i] + [wave[i]];
          }
          assert wave[..SpawnNumber] == wave;
          shouldSpawnTanks := false;
        }
      }
    }

    /** A bullet the player asked for leaves its muzzle. */
    method FirePlayerBullet()
      requires IsHeadingOf(player.heading, player.direction)
      modifies this`bullets, player`shouldSpawnBullet
      ensures bullets == old(bullets) + (if old(player.shouldSpawnBullet) then [old(player.Shot(bulletSize))] else [])
      ensures !player.shouldSpawnBullet
    {
      if player.shouldSpawnBullet {
        bullets := bullets + [player.Shot(bulletSize)];
        player.shouldSpawnBullet := false;
      }
    }

    /**
     * A dead player ends the game: the waves defeated are recorded as its score, the high
     * score becomes the larger of the old one and that score, the field is cleared and the
     * title screen returns.
     */
    method ResetAfterDeath()
      requires Valid()
      modifies this`scores, this`highScore, this`bullets, this`enemies, this`gamesPlayed,
               this`wavesDefeated, this`isInTitleScreen, player`hp, player`isDead
      ensures Valid()
      ensures old(player.isDead) ==>
        scores == old(scores) + [old(wavesDefeated)] &&
        highScore == Max(old(highScore), old(wavesDefeated)) &&
        player.hp == PlayerFullHp && !player.isDead && bullets == [] && enemies == [] &&
        gamesPlayed == old(gamesPlayed) + 1 && wavesDefeated == -1 && isInTitleScreen
      ensures !old(player.isDead) ==>
        scores == old(scores) && highScore == old(highScore) && player.hp == old(player.hp) &&
        !player.isDead && bullets == old(bullets) && enemies == old(enemies) &&
        gamesPlayed == old(gamesPlayed) && wavesDefeated == old(wavesDefeated) && isInTitleScreen == old(isInTitleScreen)
    {
      if player.isDead {
        scores := scores + [wavesDefeated];
        CalculateHighScore();
        HighestScoreAppend(old(scores), old(wavesDefeated));
        player.hp := PlayerFullHp;
        bullets := [];
        enemies := [];
        gamesPlayed := gamesPlayed + 1;
        wavesDefeated := -1;
        player.isDead := false;
        isInTitleScreen := true;
      }
    }

    /** Every enemy that asked to fire does, in order, and no longer asks. */
    method FireEnemyBullets()
      requires forall i | 0 <= i < |enemies| :: enemies[i].Valid()
      modifies this`bullets, this`enemies
      ensures bullets == old(bullets) + EnemyShots(old(enemies), bulletSize)
      ensures |enemies| == |old(enemies)|
      ensures forall i | 0 <= i < |enemies| :: enemies[i] == old(enemies)[i].(shouldSpawnBullet := false)
    {
      ghost var es := enemies;
      for i := 0 to |enemies|
        invariant |enemies| == |es|
        invariant forall k | 0 <= k < i :: enemies[k] == es[k].(shouldSpawnBullet := false)
        invariant forall k | i <= k < |es| :: enemies[k] == es[k]
        invariant bullets == old(bullets) + EnemyShots(es[..i], bulletSize)
      {
        var enemy := enemies[i];
        assert es[..i + 1][..i] == es[..i];
        if enemy.shouldSpawnBullet {
          bullets := bullets + [EnemyShot(enemy, bulletSize)];
        }
        enemies := enemies[i := enemy.(shouldSpawnBullet := false)];
      }
      assert es[..|es|] == es;
    }

    /** Every bullet takes one step. */
    method AdvanceBullets()
      modifies this`bullets
      ensures |bullets| == |old(bullets)|
      ensures forall j | 0 <= j < |bullets| :: bullets[j] == old(bullets)[j].Update()
    {
      for j := 0 to |bullets|
        invariant |bullets| == |old(bullets)|
        invariant forall k | 0 <= k < j :: bullets[k] == old(bullets)[k].Update()
        invariant forall k | j <= k < |bullets| :: bullets[k] == old(bullets)[k]
      {
        bullets := bullets[j := bullets[j].Update()];
      }
    }

    /** Every enemy takes one step toward the player's new position. */
    method AdvanceEnemies(now: real, aim: Vec2 -> Vec2)
      requires IsAim(aim)
      modifies this`enemies
      ensures |enemies| == |old(enemies)|
      ensures forall i | 0 <= i < |enemies| ::
        enemies[i] == old(enemies)[i].Update(player.position, aim(Sub(player.position, old(enemies)[i].position)), now)
    {
      for i := 0 to |enemies|
        invariant |enemies| == |old(enemies)|
        invariant forall k | 0 <= k < i ::
          enemies[k] == old(enemies)[k].Update(player.position, aim(Sub(player.position, old(enemies)[k].position)), now)
        invariant forall k | i <= k < |enemies| :: enemies[k] == old(enemies)[k]
      {
        var enemy := enemies[i];
        enemies := enemies[i := enemy.Update(player.position, aim(Sub(player.position, enemy.position)), now)];
      }
    }

    /** Game::checkForRemoval: bullets off the screen are marked. */
    method CheckForRemoval()
      modifies this`bullets
      ensures |bullets| == |old(bullets)|
      ensures forall j | 0 <= j < |bullets| ::
        bullets[j] == old(bullets)[j].(shouldBeDestroyed := old(bullets)[j].shouldBeDestroyed || old(bullets)[j].IsOffScreen())
    {
      for j := 0 to |bullets|
        invariant |bullets| == |old(bullets)|
        invariant forall k | 0 <= k < j ::
          bullets[k] == old(bullets)[k].(shouldBeDestroyed := old(bullets)[k].shouldBeDestroyed || old(bullets)[k].IsOffScreen())
        invariant forall k | j <= k < |bullets| :: bullets[k] == old(bullets)[k]
      {
        var bullet := bullets[j];
        if bullet.IsOffScreen() {
          bullets := bullets[j := bullet.(shouldBeDestroyed := true)];
        }
      }
    }

    /**
     * Game::checkForCollisions: every enemy takes the damage of the player bullets on it,
     * every bullet on an enemy or enemy bullet on the player is marked, and the player takes
     * the damage of the enemy bullets on it. The invariants of the enemies and of the
     * player's health are kept.
     */
    method CheckForCollisions(dmg: (nat, nat) -> int, pdmg: nat -> int)
      requires EnemyDamageRolls(dmg) && PlayerDamageRolls(pdmg)
      requires 0 <= player.hp
      modifies this`enemies, this`bullets, player`hp, player`isDead
      ensures enemies == EnemiesAfterHits(old(enemies), old(bullets), dmg)
      ensures forall i | 0 <= i < |enemies| :: old(enemies)[i].Valid() ==> enemies[i].Valid()
      ensures bullets == ResolvedBullets(old(bullets), old(enemies), player.corners)
      ensures Health(player.hp, player.isDead)
        == PlayerAfterHits(Health(old(player.hp), old(player.isDead)), player.corners, old(bullets), pdmg)
      ensures 0 <= player.hp <= old(player.hp)
      ensures player.hp == 0 && !player.isDead ==> old(player.hp) == 0 && !old(player.isDead)
    {
      ghost var bs := bullets;
      HitEnemies(dmg);
      ghost var marked := bullets;
      HitPlayer(pdmg);
      PlayerAfterHitsIgnoresMarks(Health(old(player.hp), old(player.isDead)), player.corners, bs, marked, pdmg);
      PlayerHitsEffect(Health(old(player.hp), old(player.isDead)), player.corners, bs, pdmg);
      forall i | 0 <= i < |enemies| && old(enemies)[i].Valid()
        ensures enemies[i].Valid()
      {
        EnemyHitsKeepValid(old(enemies)[i], i, bs, dmg);
      }
      assert enemies == EnemiesAfterHits(old(enemies), bs, dmg);
      assert bullets == ResolvedBullets(bs, old(enemies), player.corners);
    }

    /** The first loop of checkForCollisions, over every enemy. */
    method HitEnemies(dmg: (nat, nat) -> int)
      modifies this`enemies, this`bullets
      ensures |enemies| == |old(enemies)| && |bullets| == |old(bullets)|
      ensures forall i | 0 <= i < |enemies| :: enemies[i] == EnemyAfterHits(old(enemies)[i], i, old(bullets), dmg)
      ensures forall j | 0 <= j < |bullets| ::
        bullets[j] == old(bullets)[j].(shouldBeDestroyed := old(bullets)[j].shouldBeDestroyed || HitByAnEnemy(old(bullets)[j], old(enemies)))
    {
      ghost var es, bs := enemies, bullets;
      for i := 0 to |enemies|
        invariant |enemies| == |es| && |bullets| == |bs|
        invariant forall k | 0 <= k < i :: enemies[k] == EnemyAfterHits(es[k], k, bs, dmg)
        invariant forall k | i <= k < |es| :: enemies[k] == es[k]
        invariant forall j | 0 <= j < |bs| ::
          bullets[j] == bs[j].(shouldBeDestroyed := bs[j].shouldBeDestroyed || HitByAnEnemy(bs[j], es[..i]))
      {
        HitEnemy(i, dmg, bs);
        forall j | 0 <= j < |bs|
          ensures HitByAnEnemy(bs[j], es[..i + 1]) <==> HitByAnEnemy(bs[j], es[..i]) || Overlaps(es[i].corners, bs[j])
        {
          HitByAnEnemyStep(bs[j], es, i);
        }
      }
      assert es[..|es|] == es;
    }

    /**
     * The inner loop for enemy i: the bullets `bs` are the ones the loops started with, which
     * differ from the current ones only in their marks.
     */
    method HitEnemy(i: nat, dmg: (nat, nat) -> int, ghost bs: seq<Bullet>)
      requires i < |enemies| && |bullets| == |bs|
      requires forall j | 0 <= j < |bs| :: bullets[j] == bs[j].(shouldBeDestroyed := bullets[j].shouldBeDestroyed)
      modifies this`enemies, this`bullets
      ensures enemies == old(enemies)[i := EnemyAfterHits(old(enemies)[i], i, bs, dmg)]
      ensures |bullets| == |bs|
      ensures forall j | 0 <= j < |bs| ::
        bullets[j] == old(bullets)[j].(shouldBeDestroyed := old(bullets)[j].shouldBeDestroyed || Overlaps(old(enemies)[i].corners, bs[j]))
    {
      var enemy := enemies[i];
      for j := 0 to |bullets|
        invariant |bullets| == |bs|
        invariant enemies == old(enemies)
        invariant enemy == EnemyAfterHits(old(enemies)[i], i, bs[..j], dmg)
        invariant forall k | 0 <= k < j ::
          bullets[k] == old(bullets)[k].(shouldBeDestroyed := old(bullets)[k].shouldBeDestroyed || Overlaps(old(enemies)[i].corners, bs[k]))
        invariant forall k | j <= k < |bs| :: bullets[k] == old(bullets)[k]
      {
        var bullet := bullets[j];
        assert bs[..j + 1][..j] == bs[..j];
        if CheckCollisionRectCorners(enemy.corners, bullet.corners) {
          if bullet.isPlayerBullet {
            enemy := enemy.(hp := enemy.hp - dmg(i, j));
            if enemy.hp <= 0 {
              enemy := enemy.(shouldBeDestroyed := true);
            }
          }
          bullets := bullets[j := bullet.(shouldBeDestroyed := true)];
        }
      }
      assert bs[..|bs|] == bs;
      enemies := enemies[i := enemy];
    }

    /** The second loop of checkForCollisions: enemy bullets on the player. */
    method HitPlayer(pdmg: nat -> int)
      modifies this`bullets, player`hp, player`isDead
      ensures Health(player.hp, player.isDead)
        == PlayerAfterHits(Health(old(player.hp), old(player.isDead)), player.corners, old(bullets), pdmg)
      ensures |bullets| == |old(bullets)|
      ensures forall j | 0 <= j < |bullets| ::
        bullets[j] == old(bullets)[j].(shouldBeDestroyed := old(bullets)[j].shouldBeDestroyed ||
                                       (Overlaps(player.corners, old(bullets)[j]) && !old(bullets)[j].isPlayerBullet))
    {
      ghost var bs := bullets;
      ghost var h := Health(player.hp, player.isDead);
      for j := 0 to |bullets|
        invariant |bullets| == |bs|
        invariant Health(player.hp, player.isDead) == PlayerAfterHits(h, player.corners, bs[..j], pdmg)
        invariant forall k | 0 <= k < j ::
          bullets[k] == bs[k].(shouldBeDestroyed := bs[k].shouldBeDestroyed ||
                                                    (Overlaps(player.corners, bs[k]) && !bs[k].isPlayerBullet))
        invariant forall k | j <= k < |bs| :: bullets[k] == bs[k]
      {
        var bullet := bullets[j];
        assert bs[..j + 1][..j] == bs[..j];
        if CheckCollisionRectCorners(player.corners, bullet.corners) {
          if !bullet.isPlayerBullet {
            player.hp := player.hp - pdmg(j);
            if player.hp <= 0 {
              player.hp := 0;
              player.isDead := true;
            }
            bullets := bullets[j := bullet.(shouldBeDestroyed := true)];
          }
        }
      }
      assert bs[..|bs|] == bs;
    }

    /**
     * Game::garbageCollect: the bullet loop steps back after each erase and removes every
     * marked bullet; the enemy loop does not step back, so the enemy that moves into an erased
     * slot is not examined.
     */
    method GarbageCollect()
      modifies this`bullets, this`enemies
      ensures bullets == UnmarkedBullets(old(bullets))
      ensures enemies == SkipErase(old(enemies))
    {
      EraseMarkedBullets();
      EraseMarkedEnemies();
    }

    /** The bullet loop of garbageCollect. */
    method EraseMarkedBullets()
      modifies this`bullets
      ensures bullets == UnmarkedBullets(old(bullets))
    {
      var i := 0;
      var bs := bullets;
      while i < |bs|
        invariant 0 <= i <= |bs|
        invariant UnmarkedBullets(old(bullets)) == bs[..i] + UnmarkedBullets(bs[i..])
        decreases |bs| - i
      {
        EraseBulletStep(old(bullets), bs, i);
        if bs[i].shouldBeDestroyed {
          bs := bs[..i] + bs[i + 1..];
          i := i - 1;
        }
        i := i + 1;
      }
      assert bs[..i] == bs;
      bullets := bs;
    }

    /** The enemy loop of garbageCollect, which does not step back after an erase. */
    method EraseMarkedEnemies()
      modifies this`enemies
      ensures enemies == SkipErase(old(enemies))
    {
      var i := 0;
      var es := enemies;
      assert es[0..] == es;
      while i < |es|
        invariant 0 <= i <= |es| + 1
        invariant i <= |es| ==> SkipErase(old(enemies)) == es[..i] + SkipErase(es[i..])
        invariant i == |es| + 1 ==> SkipErase(old(enemies)) == es
        decreases |es| + 1 - i
      {
        EraseEnemyStep(old(enemies), es, i);
        if es[i].shouldBeDestroyed {
          es := es[..i] + es[i + 1..];
        }
        i := i + 1;
      }
      if i == |es| {
        assert es[..i] == es;
      }
      enemies := es;
    }

    /** Game::calculateHighScore: the fold of the scores, left alone when there are none. */
    method CalculateHighScore()
      modifies this`highScore
      ensures scores == [] ==> highScore == old(highScore)
      ensures scores != [] ==> highScore == HighestScore(scores)
    {
      if scores == [] {
        return;
      }
      var highestScore := 0;
      for k := 0 to |scores|
        invariant highestScore == HighestScore(scores[..k])
      {
        var score := scores[k];
        assert scores[..k + 1][..k] == scores[..k];
        if highestScore > score {
          continue;
        } else if score >= highestScore {
          highestScore := score;
        }
      }
      assert scores[..|scores|] == scores;
      highScore := highestScore;
    }
  }
}
