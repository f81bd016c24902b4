/**
 * What Game::checkForCollisions does to the enemies, the bullets and the player. Each enemy
 * is checked against every bullet in order; then every bullet against the player. raylib's
 * GetRandomValue(1, max) for each hit is a parameter: `dmg(i, j)` for enemy i hit by bullet
 * j, `pdmg(j)` for the player hit by bullet j.
 */
module Resolution {
  import opened Geometry
  import opened Collision
  import opened Entities

  /** maximumBulletDamagePlayer and maximumBulletDamageEnemy. */
  const MaxPlayerBulletDamage: int := 7
  const MaxEnemyBulletDamage: int := 3

  ghost predicate EnemyDamageRolls(dmg: (nat, nat) -> int) {
    forall i, j :: 1 <= dmg(i, j) <= MaxPlayerBulletDamage
  }

  ghost predicate PlayerDamageRolls(pdmg: nat -> int) {
    forall j :: 1 <= pdmg(j) <= MaxEnemyBulletDamage
  }

  predicate Overlaps(corners: Corners, b: Bullet) {
    CheckCollisionRectCorners(corners, b.corners)
  }

  // ---------------------------------------------------------------------------------------
  // Enemies

  /**
   * Enemy i after the inner loop has run over the bullets bs: every player bullet that
   * overlaps it takes a roll off its hp, and it is marked once its hp is at most 0.
   * Bullets fired by enemies do nothing to it.
   */
  function EnemyAfterHits(e: Enemy, i: nat, bs: seq<Bullet>, dmg: (nat, nat) -> int): (r: Enemy)
    ensures r == e.(hp := r.hp, shouldBeDestroyed := r.shouldBeDestroyed)
    decreases |bs|
  {
    if bs == [] then e
    else
      var j := |bs| - 1;
      var hit := EnemyAfterHits(e, i, bs[..j], dmg);
      if Overlaps(hit.corners, bs[j]) && bs[j].isPlayerBullet then
        var hp := hit.hp - dmg(i, j);
        hit.(hp := hp, shouldBeDestroyed := if hp <= 0 then true else hit.shouldBeDestroyed)
      else hit
  }

  /** How many player bullets overlap the rectangle. */
  function PlayerBulletHits(corners: Corners, bs: seq<Bullet>): nat {
    if bs == [] then 0
    else
      var j := |bs| - 1;
      PlayerBulletHits(corners, bs[..j]) + (if Overlaps(corners, bs[j]) && bs[j].isPlayerBullet then 1 else 0)
  }

  /**
   * An enemy hit by k player bullets loses between k and 7k hp, possibly several times in
   * one tick, and ends up marked exactly when it was marked before or was hit and has no hp
   * left. With k = 0 nothing about it changes.
   */
  lemma {:induction false} EnemyHitsEffect(e: Enemy, i: nat, bs: seq<Bullet>, dmg: (nat, nat) -> int)
    requires EnemyDamageRolls(dmg)
    ensures var r, k := EnemyAfterHits(e, i, bs, dmg), PlayerBulletHits(e.corners, bs);
      k <= e.hp - r.hp <= MaxPlayerBulletDamage * k &&
      (r.shouldBeDestroyed <==> e.shouldBeDestroyed || (k > 0 && r.hp <= 0))
    decreases |bs|
  {
    if bs != [] {
      var j := |bs| - 1;
      EnemyHitsEffect(e, i, bs[..j], dmg);
      var hit := EnemyAfterHits(e, i, bs[..j], dmg);
      assert 1 <= dmg(i, j) <= MaxPlayerBulletDamage;
    }
  }

  /** Enemy bullets never hurt enemies: an enemy that no player bullet overlaps is unchanged. */
  lemma EnemyBulletsHarmless(e: Enemy, i: nat, bs: seq<Bullet>, dmg: (nat, nat) -> int)
    requires EnemyDamageRolls(dmg)
    requires forall j | 0 <= j < |bs| :: Overlaps(e.corners, bs[j]) ==> !bs[j].isPlayerBullet
    ensures EnemyAfterHits(e, i, bs, dmg) == e
  {
    NoPlayerBulletHits(e.corners, bs);
    EnemyHitsEffect(e, i, bs, dmg);
  }

  lemma {:induction false} NoPlayerBulletHits(corners: Corners, bs: seq<Bullet>)
    requires forall j | 0 <= j < |bs| :: Overlaps(corners, bs[j]) ==> !bs[j].isPlayerBullet
    ensures PlayerBulletHits(corners, bs) == 0
    decreases |bs|
  {
    if bs != [] {
      NoPlayerBulletHits(corners, bs[..|bs| - 1]);
    }
  }

  /** An enemy valid before the hits is valid after them: hp only falls, and the mark follows it. */
  lemma EnemyHitsKeepValid(e: Enemy, i: nat, bs: seq<Bullet>, dmg: (nat, nat) -> int)
    requires EnemyDamageRolls(dmg) && e.Valid()
    ensures EnemyAfterHits(e, i, bs, dmg).Valid()
    ensures EnemyAfterHits(e, i, bs, dmg).hp <= e.hp
  {
    EnemyHitsEffect(e, i, bs, dmg);
  }

  // ---------------------------------------------------------------------------------------
  // Bullets

  /** Some enemy of es overlaps the bullet. */
  predicate HitByAnEnemy(b: Bullet, es: seq<Enemy>) {
    exists k | 0 <= k < |es| :: Overlaps(es[k].corners, b)
  }

  lemma HitByAnEnemyStep(b: Bullet, es: seq<Enemy>, i: nat)
    requires i < |es|
    ensures HitByAnEnemy(b, es[..i + 1]) <==> HitByAnEnemy(b, es[..i]) || Overlaps(es[i].corners, b)
  {
    if Overlaps(es[i].corners, b) {
      assert es[..i + 1][i] == es[i];
    }
    if HitByAnEnemy(b, es[..i]) {
      var k :| 0 <= k < i && Overlaps(es[..i][k].corners, b);
      assert es[..i + 1][k] == es[..i][k];
    }
  }

  /**
   * A bullet after both loops: marked when some enemy overlaps it, whoever fired it, or when
   * it is an enemy bullet overlapping the player. A player bullet overlapping the player is
   * left alone.
   */
  function ResolvedBullet(b: Bullet, es: seq<Enemy>, playerCorners: Corners): (r: Bullet)
    ensures r == b.(shouldBeDestroyed := r.shouldBeDestroyed)
    ensures b.shouldBeDestroyed ==> r.shouldBeDestroyed
    ensures HitByAnEnemy(b, es) ==> r.shouldBeDestroyed
    ensures !b.isPlayerBullet && Overlaps(playerCorners, b) ==> r.shouldBeDestroyed
    ensures !b.shouldBeDestroyed && !HitByAnEnemy(b, es) && b.isPlayerBullet ==> r == b
  {
    b.(shouldBeDestroyed :=
      b.shouldBeDestroyed || HitByAnEnemy(b, es) || (Overlaps(playerCorners, b) && !b.isPlayerBullet))
  }

  // ---------------------------------------------------------------------------------------
  // Player

  /** The two fields of Player that collisions change. */
  datatype Health = Health(hp: int, isDead: bool)

  /**
   * The player after the second loop has run over the bullets bs: each enemy bullet that
   * overlaps takes a roll off the hp; hp at or below 0 is clamped to 0 and the player dies.
   */
  function PlayerAfterHits(h: Health, corners: Corners, bs: seq<Bullet>, pdmg: nat -> int): Health
    decreases |bs|
  {
    if bs == [] then h
    else
      var j := |bs| - 1;
      var hit := PlayerAfterHits(h, corners, bs[..j], pdmg);
      if Overlaps(corners, bs[j]) && !bs[j].isPlayerBullet then
        var hp := hit.hp - pdmg(j);
        if hp <= 0 then Health(0, true) else Health(hp, hit.isDead)
      else hit
  }

  /** Marks do not take part in the player loop: bullets that differ only in their marks hurt alike. */
  lemma {:induction false} PlayerAfterHitsIgnoresMarks(h: Health, corners: Corners, bs: seq<Bullet>,
                                                      marked: seq<Bullet>, pdmg: nat -> int)
    requires |marked| == |bs|
    requires forall j | 0 <= j < |bs| :: marked[j] == bs[j].(shouldBeDestroyed := marked[j].shouldBeDestroyed)
    ensures PlayerAfterHits(h, corners, marked, pdmg) == PlayerAfterHits(h, corners, bs, pdmg)
    decreases |bs|
  {
    if bs != [] {
      var j := |bs| - 1;
      PlayerAfterHitsIgnoresMarks(h, corners, bs[..j], marked[..j], pdmg);
    }
  }

  /** How many enemy bullets overlap the rectangle, and the damage they roll in total. */
  function EnemyBulletHits(corners: Corners, bs: seq<Bullet>): nat {
    if bs == [] then 0
    else
      var j := |bs| - 1;
      EnemyBulletHits(corners, bs[..j]) + (if Overlaps(corners, bs[j]) && !bs[j].isPlayerBullet then 1 else 0)
  }

  function EnemyBulletDamage(corners: Corners, bs: seq<Bullet>, pdmg: nat -> int): int {
    if bs == [] then 0
    else
      var j := |bs| - 1;
      EnemyBulletDamage(corners, bs[..j], pdmg) + (if Overlaps(corners, bs[j]) && !bs[j].isPlayerBullet then pdmg(j) else 0)
  }

  /**
   * A player hit by k enemy bullets takes a total damage d between k and 3k and is left with
   * max(0, hp - d); it is dead afterwards exactly when it was dead before or was hit and has
   * no hp left. Player bullets never hurt the player.
   */
  lemma {:induction false} PlayerHitsEffect(h: Health, corners: Corners, bs: seq<Bullet>, pdmg: nat -> int)
    requires PlayerDamageRolls(pdmg) && h.hp >= 0
    ensures var r, k, d := PlayerAfterHits(h, corners, bs, pdmg), EnemyBulletHits(corners, bs), EnemyBulletDamage(corners, bs, pdmg);
      k <= d <= MaxEnemyBulletDamage * k &&
      r.hp == (if h.hp - d <= 0 then 0 else h.hp - d) &&
      (r.isDead <==> h.isDead || (k > 0 && h.hp - d <= 0))
    decreases |bs|
  {
    if bs != [] {
      var j := |bs| - 1;
      PlayerHitsEffect(h, corners, bs[..j], pdmg);
      assert 1 <= pdmg(j) <= MaxEnemyBulletDamage;
    }
  }
}
