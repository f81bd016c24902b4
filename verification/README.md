# Shoot the Tanks: a Dafny model of the game's core

Shoot the Tanks is a small raylib game. The player drives a tank toward the mouse cursor and
shoots. Waves of eight enemy tanks drive in from the edges of the window, stop after 150
units and fire back. The game keeps score of the waves defeated.

This project models the parts of the game that are logic rather than drawing:

- **The collision test** between rotated rectangles (`ExtraHeader.h`). A rectangle is split
  into two fan triangles, and a sign test on two linear forms `s`, `t` and the signed area
  decides whether a point lies in a triangle.
- **The random reload time** (`GetRandomFloat`). The random draw is a parameter.
- **The entities.** Bullets and enemies are values kept in the game's vectors. The player is
  one object updated in place. Modelled behaviour:
  - a bullet's straight-line flight;
  - an enemy's approach-then-hold-and-fire state machine;
  - the player's movement and fire flag.
- **The `Game` object and its per-frame `update`:**
  - the title screen, the pause button and focus loss;
  - the start and spawning of waves;
  - firing;
  - the death of the player and the recording of its score;
  - off-screen marking;
  - hit resolution and damage;
  - the compaction of the bullet and enemy vectors;
  - the high score.

Float coordinates are modelled as `real`s. An angle is represented by its unit heading
`(cos θ, sin θ)`:
- `Vector2Rotate` becomes exact polynomial arithmetic.
- `atan2f` becomes a heading oracle `aim` that each frame receives, with `aim(d)` the unit
  vector pointing along `d`, or `(1, 0)` for the zero vector.

Everything a frame reads from raylib arrives in an `Input`:
- the time, the cursor, the button and key states, and the window state;
- the heading oracle;
- the eight reload draws of a wave;
- the damage rolls of the collisions.

Modules, in dependency order:
- `Geometry`: vectors, rotation, corners, raylib's point-in-rectangle test.
- `Collision`: `PointInTriangle` and `CheckCollisionRectCorners`.
- `Random`: `GetRandomFloat`.
- `Entities`: `Bullet`, `Enemy`, `Player`.
- `Scoring`: the high-score fold.
- `Compaction`: what `garbageCollect` leaves.
- `Resolution`: what `checkForCollisions` does.
- `Game`: the `Game` class.

The quirks of the source are kept as written:
- The enemy erase loop does not step back after an erase. The enemy that moves into the
  erased slot is never examined, so a marked enemy can survive a frame.
- The off-screen test compares the top edge with the whole height and the other edges with
  half the size.
- A bullet fired by an enemy is consumed by any enemy it overlaps, without hurting it.
- The high-score fold starts at 0, so negative scores never become the high score.
- A click on the pause button is also a left click for the player. The click that pauses the
  game comes after that frame's tick, so the player fires a bullet as the game pauses. The
  click that unpauses it does not fire: a paused frame has no tick, and the toggle comes
  after the test for a pause.
- The end of a game does not clear a pending wave. When the player dies during the delay
  before a spawn, the next game spawns that wave without starting one of its own, so its
  first wave is defeated with `wavesDefeated` still at −1 and every later score is one lower.

## Model

| member | source | states |
|---|---|---|
| Collision.CollisionIffSomeTest | shoot-the-tanks/ExtraHeader.h:20-40 | two rectangles collide exactly when one of the 24 tests succeeds; each test puts a vertex of one fan triangle of one rectangle in a fan triangle (0,1,2) or (0,2,3) of the other |
| Collision.CollisionSymmetric | shoot-the-tanks/ExtraHeader.h:26-37 | swapping the two rectangles never changes the verdict |
| Collision.SharedFirstCornerCollides | shoot-the-tanks/ExtraHeader.h:22-30 | rectangles with the same first corner collide; every rectangle collides with itself |
| Collision.ThirdCornerInFirstFanCollides | shoot-the-tanks/ExtraHeader.h:29-30 | a single succeeding vertex test (corner 2 of rect1 in the first fan triangle of rect2) is enough for a collision |
| Collision.DisjointClockwiseRectsCollide | shoot-the-tanks/ExtraHeader.h:9-40 | two clockwise rectangles whose bounding boxes [-2,-1]² and [0,1]² are disjoint are reported as colliding |
| Collision.MixedSignsRejected | shoot-the-tanks/ExtraHeader.h:13 | a point where exactly one of s and t is negative is rejected, whatever the area |
| Collision.VertexAInside | shoot-the-tanks/ExtraHeader.h:9-16 | s and t vanish at vertex A, so A is always inside its own triangle |
| Collision.VerticesBCInsideIffNotClockwise | shoot-the-tanks/ExtraHeader.h:9-16 | vertex B, and likewise vertex C, is accepted exactly when the signed area is not negative |
| Collision.CentroidInside | shoot-the-tanks/ExtraHeader.h:9-16 | the centroid of every triangle is accepted, for either winding and for degenerate triangles |
| Collision.Barycentric | shoot-the-tanks/ExtraHeader.h:10-15 | s and t are the area-scaled barycentric coordinates of P: area·P = area·A + s·(B−A) + t·(C−A) |
| Collision.ClosedTestExact | shoot-the-tanks/ExtraHeader.h:9-16 | the corrected test accepts exactly the points whose three barycentric weights are all at least 0, for either winding |
| Collision.AgreesUnlessClockwise | shoot-the-tanks/ExtraHeader.h:15-16 | on triangles with non-negative area the test as written and the corrected test accept the same points |
| Collision.ClockwiseCharacterised | shoot-the-tanks/ExtraHeader.h:13-16 | on clockwise triangles the test as written accepts the interior and the open edge BC (s + t = area), plus the points with s = 0 and t ≥ 0: vertex A and the line AC beyond A. It rejects the open edges AB and AC and the vertices B and C |
| Collision.ClockwiseBoundaryAsWritten | shoot-the-tanks/ExtraHeader.h:9-16 | on the clockwise triangle (0,0),(0,1),(1,0) the test as written accepts the midpoint of BC and rejects the midpoints of AB and AC and the vertices B and C |
| Collision.ClockwiseBoundaryClosed | shoot-the-tanks/ExtraHeader.h:9-16 | the corrected test accepts all five of those boundary points |
| Collision.ClockwiseRayAccepted | shoot-the-tanks/ExtraHeader.h:9-16 | P = (−1,0) is outside the clockwise triangle (0,0),(0,1),(1,0), yet the test as written accepts it; the corrected test rejects it |
| Collision.OrientedCornersCounterClockwise | shoot-the-tanks/shoot_the_tanks.cpp:201-211 | both fan triangles of a game rectangle have area 4·ox·oy, positive for textures of positive size, so on such rectangles the test as written equals the corrected test |
| Collision.AreaRotation | shoot-the-tanks/shoot_the_tanks.cpp:208-210 | rotating three points by a unit heading keeps their signed area |
| Collision.RelabellingKeepsVerdict | shoot-the-tanks/ExtraHeader.h:9-16 | on a counter-clockwise triangle, P is accepted for (A, B, C) exactly when it is accepted for (B, C, A): the verdict does not depend on which vertex is called A |
| Collision.ClockwiseRelabellingChangesVerdict | shoot-the-tanks/ExtraHeader.h:9-16 | on the clockwise triangle (0,0),(0,1),(1,0) the point (−1,0) is accepted for (A, B, C) but rejected for (B, C, A) |
| Collision.BarycentricAlong | shoot-the-tanks/ExtraHeader.h:10-15 | along any direction n, area·(P·n) is the combination of A·n, B·n, C·n with weights area − s − t, s and t |
| Collision.CombinationAbove | shoot-the-tanks/ExtraHeader.h:13-15 | a combination with non-negative weights of positive total, of values all above m, is above the total weight times m |
| Collision.PointBeforeTriangleRejected | shoot-the-tanks/ExtraHeader.h:9-16 | a point that lies strictly before all three vertices of a counter-clockwise triangle along some direction is rejected |
| Collision.CornerBeforeRectRejected | shoot-the-tanks/ExtraHeader.h:20-40 | a point strictly before all four corners of a counter-clockwise rectangle along some direction lies in neither of its fan triangles |
| Collision.DotNeg | shoot-the-tanks/ExtraHeader.h:20-40 | reversing the direction negates every corner's projection |
| Collision.SeparatedRectsDoNotCollide | shoot-the-tanks/ExtraHeader.h:20-40 | two counter-clockwise rectangles with a separating direction (every corner of one strictly before every corner of the other) do not collide |
| Collision.BoxesApart | shoot-the-tanks/ExtraHeader.h:20-40 | a gap between bounding boxes along x (or y) makes that axis a separating direction |
| Collision.DisjointBoxesDoNotCollide | shoot-the-tanks/ExtraHeader.h:20-40 | counter-clockwise rectangles whose bounding boxes are disjoint do not collide |
| Collision.DisjointGameRectsDoNotCollide | shoot-the-tanks/ExtraHeader.h:20-40 | rectangles built by the game (positive origin, unit heading) whose bounding boxes are disjoint do not collide, unlike the clockwise ones of DisjointClockwiseRectsCollide |
| Random.GetRandomFloat | shoot-the-tanks/ExtraHeader.h:45-47 | the value lies between min and max in either order; draw 0 gives min and draw 10000 gives max |
| Random.GetRandomFloatMonotone | shoot-the-tanks/ExtraHeader.h:45-47 | when min ≤ max, a larger draw never gives a smaller value |
| Geometry.Normalize | shoot-the-tanks/shoot_the_tanks.cpp:300 | the zero direction stays zero; any other direction becomes a unit vector parallel to it and pointing the same way |
| Entities.Bullet.Update | shoot-the-tanks/shoot_the_tanks.cpp:128-145 | the corners are taken at the old position, the bullet moves 15 along its heading, and nothing else changes |
| Entities.NewBullet | shoot-the-tanks/shoot_the_tanks.cpp:115-121 | a new bullet has the given heading, position, size and owner, and is not marked |
| Entities.BulletStraightLine | shoot-the-tanks/shoot_the_tanks.cpp:141-144 | after n updates a bullet is n·15 along its heading from its start; only its position and corners have changed |
| Entities.TopEdgeAsymmetry | shoot-the-tanks/shoot_the_tanks.cpp:348 | a bullet above the top edge by between half its height and its height is not off screen; the same gap below the bottom edge is off screen |
| Entities.Enemy.Update | shoot-the-tanks/shoot_the_tanks.cpp:182-212 | the direction points at the target. While holding, the enemy stays put and asks to fire once the reload time has passed since it last asked, resetting lastUpdatedTime to now. While approaching, it moves 8 along the heading and adds 8 to movedDistance, holding once that reaches 150. The corners follow the new position, hp is unchanged, and the enemy invariant is kept |
| Entities.NewEnemy | shoot-the-tanks/shoot_the_tanks.cpp:168-174 | a new enemy satisfies the enemy invariant, with hp 10, reload time drawn in [0.5, 1.5], not moved, not holding, not firing |
| Entities.EnemyShot | shoot-the-tanks/shoot_the_tanks.cpp:318-323 | an unmarked enemy bullet along the enemy's heading; once the enemy has a direction, it starts size.x/2 + 25 ahead of the enemy's centre |
| Entities.HoldingIsFinal | shoot-the-tanks/shoot_the_tanks.cpp:185-190 | once an enemy holds it holds for good, and its position and movedDistance never change again |
| Entities.HoldsAfter | shoot-the-tanks/shoot_the_tanks.cpp:191-199 | an approaching enemy holds after n updates exactly when movedDistance + 8n ≥ 150 |
| Entities.FreshEnemyHoldsFromNineteenthUpdate | shoot-the-tanks/shoot_the_tanks.cpp:196-199 | a freshly spawned enemy holds after exactly 19 or more updates |
| Entities.Player.constructor | shoot-the-tanks/shoot_the_tanks.cpp:46-63 | the player starts in the middle of the window with 100 hp, not dead, not firing |
| Entities.Player.Update | shoot-the-tanks/shoot_the_tanks.cpp:71-99 | the direction points at the cursor and the corners are taken at the old position. Space or a left click sets the fire flag, which is never cleared here. With W held and the cursor more than 20 away on some axis the tank moves 8 along its heading, otherwise it stays. Health is untouched |
| Entities.MuzzleShot | shoot-the-tanks/shoot_the_tanks.cpp:298-303 | the bullet a player fires from a given position, direction and heading: unmarked, a player bullet, along the heading, and once the direction is not zero it starts size.x/2 + 8 ahead of the centre |
| Entities.Player.Shot | shoot-the-tanks/shoot_the_tanks.cpp:298-303 | an unmarked player bullet along the player's heading; once the player has a direction, it starts size.x/2 + 8 ahead of the player's centre |
| Scoring.HighestScore | shoot-the-tanks/shoot_the_tanks.cpp:397-404 | the fold is at least 0 and at least every score, and it is 0 or one of the scores: it is max(0, max(scores)) |
| Scoring.HighestScoreAppend | shoot-the-tanks/shoot_the_tanks.cpp:307-308 | recording one more score makes the high score the larger of the old high score and the new score |
| Scoring.HighestScoreIsMaximum | shoot-the-tanks/shoot_the_tanks.cpp:395-406 | when some score is not negative, the high score is one of the scores and the maximum of them |
| Compaction.UnmarkedBullets | shoot-the-tanks/shoot_the_tanks.cpp:354-359 | no surviving bullet is marked, and as many bullets are gone as were marked; which ones survive is stated by UnmarkedBulletsSelects |
| Compaction.UnmarkedBulletsKeepsUnmarked | shoot-the-tanks/shoot_the_tanks.cpp:354-359 | every unmarked bullet survives |
| Compaction.UnmarkedBulletsSelects | shoot-the-tanks/shoot_the_tanks.cpp:354-359 | the survivors are the unmarked bullets in their original order |
| Compaction.SelectAppend | shoot-the-tanks/shoot_the_tanks.cpp:317-325 | selecting from a sequence with one more element appends that element exactly when it is kept |
| Compaction.SkipErase | shoot-the-tanks/shoot_the_tanks.cpp:360-364 | the surviving enemies are enemies of the input, and no more of them |
| Compaction.SkipMask | shoot-the-tanks/shoot_the_tanks.cpp:360-364 | the enemies kept are every unmarked one plus every one right after an erased one, and no others. Two neighbours are never both erased |
| Compaction.SkipEraseSelects | shoot-the-tanks/shoot_the_tanks.cpp:360-364 | the surviving enemies are the subsequence, in order, that the mask selects |
| Compaction.MarkedAfterErasedSurvives | shoot-the-tanks/shoot_the_tanks.cpp:360-364 | of two marked enemies in a row, the first is erased and the second survives |
| Compaction.EraseBulletStep | shoot-the-tanks/shoot_the_tanks.cpp:355-358 | one pass of the bullet loop, with its step back after an erase, keeps the loop's invariant |
| Compaction.EraseEnemyStep | shoot-the-tanks/shoot_the_tanks.cpp:360-364 | one pass of the enemy loop, which advances even after an erase, keeps the loop's invariant |
| Resolution.EnemyAfterHits | shoot-the-tanks/shoot_the_tanks.cpp:368-379 | the inner loop changes only an enemy's hp and removal mark |
| Resolution.EnemyHitsEffect | shoot-the-tanks/shoot_the_tanks.cpp:369-375 | an enemy overlapped by k player bullets loses between k and 7k hp. It ends up marked exactly when it was marked already, or was hit and has no hp left |
| Resolution.EnemyBulletsHarmless | shoot-the-tanks/shoot_the_tanks.cpp:370 | an enemy overlapped by no player bullet comes out unchanged, even when enemy bullets overlap it |
| Resolution.EnemyHitsKeepValid | shoot-the-tanks/shoot_the_tanks.cpp:372-375 | the hits keep the enemy invariant and never raise hp |
| Resolution.ResolvedBullet | shoot-the-tanks/shoot_the_tanks.cpp:369-391 | a bullet ends up marked when any enemy overlaps it, whoever fired it, or when it is an enemy bullet on the player. An unhit player bullet is untouched, and no mark is ever cleared |
| Resolution.PlayerHitsEffect | shoot-the-tanks/shoot_the_tanks.cpp:381-393 | a player hit by k enemy bullets takes a total damage d in [k, 3k] and keeps max(0, hp − d). It is dead afterwards exactly when it was dead already, or was hit and has no hp left |
| Resolution.PlayerAfterHitsIgnoresMarks | shoot-the-tanks/shoot_the_tanks.cpp:381-383 | the player loop does not look at the marks set by the enemy loop |
| Game.Wave | shoot-the-tanks/shoot_the_tanks.cpp:286-293 | a wave is 8 enemies, enemy i at spawn point i, each valid, with hp 10, not holding, not marked |
| Game.EnemyShots | shoot-the-tanks/shoot_the_tanks.cpp:317-325 | no more bullets than enemies, all of them enemy bullets and none marked; which enemies fire is stated by EnemyShotsSelects |
| Game.EnemyShotsSelects | shoot-the-tanks/shoot_the_tanks.cpp:317-325 | the enemy shots are the shot of each enemy that asked to fire (`shouldSpawnBullet`), one EnemyShot each, in enemy order, and nothing else |
| Game.MarchedEnemies | shoot-the-tanks/shoot_the_tanks.cpp:317-331 | one enemy after the firing and moving loops per enemy before them |
| Game.FlownBullets | shoot-the-tanks/shoot_the_tanks.cpp:326-328 | one bullet after its update and off-screen check per bullet before them |
| Game.EnemiesAfterHits | shoot-the-tanks/shoot_the_tanks.cpp:367-380 | one enemy after its hits per enemy |
| Game.ResolvedBullets | shoot-the-tanks/shoot_the_tanks.cpp:366-394 | one resolved bullet per bullet |
| Game.WorldStep | shoot-the-tanks/shoot_the_tanks.cpp:317-334 | the second half of a tick never adds an enemy and leaves no marked bullet; an empty field stays empty, and with no enemies and no bullets the health is untouched |
| Game.SkipEraseKeepsEnemies | shoot-the-tanks/shoot_the_tanks.cpp:360-364 | the enemies the erase loop keeps are valid and of the enemy size when all given enemies were |
| Game.Game.constructor | shoot-the-tanks/shoot_the_tanks.cpp:215-241 | the game starts on the title screen with -1 waves defeated, no games, high score 0 and the game invariant. The start button is centred horizontally with its top edge at y 550, and the pause button sits at (800, 20) |
| Game.Game.Update | shoot-the-tanks/shoot_the_tanks.cpp:266-344 | keeps the game invariant. On the title screen only a click on the start button leaves it; the world, the scores, the wave state and the player are untouched. When paused the same state is untouched. Otherwise the frame is exactly one Ticked step from the state before it. The pause toggles on a pause-button click only outside the title screen, and losing focus or minimising always pauses |
| Game.Game.Play | shoot-the-tanks/shoot_the_tanks.cpp:273-340 | past the title screen: a paused frame leaves the world, the scores, the wave state and the player untouched; an unpaused one is exactly one Ticked step. Then a pause-button click toggles the pause, after the tick |
| Game.Game.Tick | shoot-the-tanks/shoot_the_tanks.cpp:274-334 | keeps the game invariant and the pause, and is one Ticked step. The title screen returns exactly when the player was dead. Only then is the score appended: the waves defeated, plus one when a wave started in this tick. The high score becomes the larger of the old one and that score, and one more game is counted. Otherwise the wave count follows the wave start, and the enemies, bullets and health are WorldStep applied to the Armed field |
| Game.Game.Armed | shoot-the-tanks/shoot_the_tanks.cpp:276-304 | the field a living player fights on after the bookkeeping: 8 enemies when a wave spawned, the bullets cleared by a spawn and then one more for a shot, and a player that is not dead |
| Game.Game.PrepareFrame | shoot-the-tanks/shoot_the_tanks.cpp:274-316 | keeps the game invariant and leaves the player alive; the bookkeeping of Restarted holds (title screen, moved player, wave flags and time, score recorded only for a dead player), and for a living player the enemies, bullets and health are the Armed field |
| Game.Game.StartFrame | shoot-the-tanks/shoot_the_tanks.cpp:276-304 | keeps the game invariant; the player has moved (PlayerMovedFrom); a wave starts when the field was clear and none was pending (hp 100, one more wave, pending since now); a pending wave past its delay replaces the enemies and clears the bullets; the player's shot, for space or a left click, is the last bullet |
| Game.Game.AdvanceWaves | shoot-the-tanks/shoot_the_tanks.cpp:276-296 | keeps the game invariant. A clear field with no wave pending starts a wave: hp 100, one more wave defeated, pending since now, and enemies and bullets unchanged. A pending wave past its delay spawns: the 8 wave enemies, no bullets, no longer pending. Otherwise nothing changes |
| Game.Game.MovePlayer | shoot-the-tanks/shoot_the_tanks.cpp:297-304 | keeps the game invariant and the player's health. The player's direction, heading, corners and position are those of Player::update from the old position. The bullets are the old ones plus the player's shot exactly when space or the left button was pressed |
| Game.Game.AdvanceWorld | shoot-the-tanks/shoot_the_tanks.cpp:317-334 | the enemies, bullets and health after firing, moving, hit resolution and compaction are WorldStep of the old ones; the game invariant is kept, including the invariant of every surviving enemy |
| Game.Game.MoveAndResolve | shoot-the-tanks/shoot_the_tanks.cpp:317-333 | the enemies are EnemiesAfterHits of the marched enemies; the bullets are ResolvedBullets of the flown bullets; the health is PlayerAfterHits. Valid enemies stay valid, hp stays in [0, old hp], and a player at 0 hp is dead |
| Game.Game.MoveEverything | shoot-the-tanks/shoot_the_tanks.cpp:317-333 | the enemies are MarchedEnemies of the old ones toward the player; the bullets are FlownBullets of the old bullets followed by the enemy shots; every enemy stays valid and of the enemy size |
| Game.Game.StartWaveIfCleared | shoot-the-tanks/shoot_the_tanks.cpp:276-281 | with no enemies and no pending wave: hp 100, one more wave defeated, a wave pending since now. Otherwise nothing changes |
| Game.Game.SpawnWaveIfDue | shoot-the-tanks/shoot_the_tanks.cpp:282-296 | once the delay of 1 has passed, the bullets are cleared, the 8 enemies of the wave are appended and the wave is no longer pending. Otherwise nothing changes |
| Game.Game.FirePlayerBullet | shoot-the-tanks/shoot_the_tanks.cpp:298-304 | if the player asked to fire, its shot is appended; the request is cleared |
| Game.Game.ResetAfterDeath | shoot-the-tanks/shoot_the_tanks.cpp:306-316 | for a dead player: the waves defeated are appended to the scores, the high score becomes the larger of the old one and that score, and hp is 100. Bullets and enemies are cleared, one more game is counted, waves defeated is -1, the player lives and the title screen returns. Otherwise nothing changes |
| Game.Game.FireEnemyBullets | shoot-the-tanks/shoot_the_tanks.cpp:317-325 | the shots of the enemies that asked to fire are appended in enemy order, and no enemy asks any more |
| Game.Game.AdvanceBullets | shoot-the-tanks/shoot_the_tanks.cpp:326-328 | every bullet takes one update |
| Game.Game.AdvanceEnemies | shoot-the-tanks/shoot_the_tanks.cpp:329-331 | every enemy takes one update toward the player's new position |
| Game.Game.CheckForRemoval | shoot-the-tanks/shoot_the_tanks.cpp:346-352 | exactly the off-screen bullets gain a mark; no mark is cleared and no other field changes |
| Game.Game.CheckForCollisions | shoot-the-tanks/shoot_the_tanks.cpp:366-394 | the enemies are EnemiesAfterHits and the bullets ResolvedBullets of the old ones, and the health is PlayerAfterHits. Valid enemies stay valid, hp stays in [0, old hp], and a player at 0 hp is dead |
| Game.Game.HitEnemies | shoot-the-tanks/shoot_the_tanks.cpp:367-380 | the first loop: each enemy takes the hits of the original bullets, and a bullet is marked exactly when it was marked or some enemy overlaps it |
| Game.Game.HitEnemy | shoot-the-tanks/shoot_the_tanks.cpp:368-379 | one pass of the outer loop: enemy i takes its hits and every bullet overlapping it is marked |
| Game.Game.HitPlayer | shoot-the-tanks/shoot_the_tanks.cpp:381-393 | the second loop: the player's health follows PlayerAfterHits and exactly the enemy bullets on the player gain a mark |
| Game.Game.GarbageCollect | shoot-the-tanks/shoot_the_tanks.cpp:353-365 | the bullets become the unmarked bullets and the enemies become the skipping erase's result |
| Game.Game.EraseMarkedBullets | shoot-the-tanks/shoot_the_tanks.cpp:354-359 | the bullet loop, with its step back, leaves exactly the unmarked bullets |
| Game.Game.EraseMarkedEnemies | shoot-the-tanks/shoot_the_tanks.cpp:360-364 | the enemy loop, without a step back, leaves the skipping erase's result |
| Game.Game.CalculateHighScore | shoot-the-tanks/shoot_the_tanks.cpp:395-406 | with no scores the high score is left alone; otherwise it becomes the fold max(0, max(scores)) |

## Left out

- Rendering, textures, fonts, sounds and music are left out: the `draw` methods, `loadMedia`,
  `PlaySound`, `PlayMusicStream`, `UpdateMusicStream` and `main`'s window loop. They are raylib
  output with nothing to decide. Texture sizes enter as parameters (`Textures`).
- Floating-point rounding is not modelled: coordinates and times are exact reals.
- Angles are not modelled. `atan2f`, `cos` and `sin` are replaced by the unit heading of the
  direction, supplied by the `aim` oracle of each frame. The per-step moved distance
  (`Vector2Length` of a heading scaled by 8) is therefore exactly 8.
- Each frame has a single `now`. The source calls `GetTime` separately when a wave starts,
  when it checks the spawn delay and in each enemy update; those calls return one value here.
- `GetRandomValue` calls become parameters:
  - the reload draws of a wave's enemies;
  - damage rolls indexed by enemy and bullet position, or by bullet position for the player.
- The velocity fields of the entities are not stored; only the position they update is.
- raylib's `CheckCollisionPointRec` is not part of this model. It is defined here from raylib's
  documented half-open rectangle test (`Geometry.PointInRect`).
- Entities.EnemyShot and Entities.Player.Shot require the shooter's heading to be the heading
  of its direction. Every enemy in the game and the player between frames satisfy this.
- The enemy's reference to the player's position is replaced by passing that position to each
  enemy update.
- `GetFrameTime`, which the player update reads but never uses, has no counterpart.
- Texture sizes are not required to be positive. raylib gives a 0×0 texture when loading fails; the
  rectangle then collapses to one point, every fan triangle has area 0, and the test accepts every
  point. The counter-clockwise results about game rectangles assume textures of positive size.

## Findings

| source | as written | input that shows it | evidently intended | confidence | as-written member | corrected member |
|---|---|---|---|---|---|---|
| shoot-the-tanks/ExtraHeader.h:16 | on a clockwise triangle (area < 0) the test demands `s <= 0` and `s + t >= area` but puts no bound on `t`. With `s == 0` it therefore accepts every point with `t >= 0`: the line AC beyond A. It also rejects the open edges AB and AC and the vertices B and C, while it accepts the open edge BC | A=(0,0), B=(0,1), C=(1,0), P=(−1,0): area = −1, s = 0, t = 1, accepted although P is outside. Two disjoint clockwise unit squares are reported as colliding | the closed triangle for either winding: `t <= 0` is also required when area < 0 | not executed; for textures of positive size the game's own rectangles are counter-clockwise (area 4·ox·oy > 0), so the game's collisions are the intended ones | Collision.ClockwiseRayAccepted | Collision.ClosedTestExact |
