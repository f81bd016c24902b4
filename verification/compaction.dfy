/**
 * What Game::garbageCollect leaves in the two vectors. The bullet loop steps back after each
 * erase (i--) and so removes every marked bullet; the enemy loop does not, so the enemy that
 * slides into the erased slot is never looked at and survives even when it is marked.
 */
module Compaction {
  import opened Entities

  /** The elements of s whose flag in keep is set, in their order: an order-preserving subsequence. */
  function Select<T>(s: seq<T>, keep: seq<bool>): (r: seq<T>)
    requires |keep| == |s|
    ensures |r| <= |s|
    ensures forall x | x in r :: x in s
  {
    if s == [] then []
    else (if keep[0] then [s[0]] else []) + Select(s[1..], keep[1..])
  }

  /** Selecting from a sequence extended by one element extends the selection by it, if kept. */
  lemma {:induction false} SelectAppend<T>(s: seq<T>, keep: seq<bool>, x: T, b: bool)
    requires |keep| == |s|
    ensures Select(s + [x], keep + [b]) == Select(s, keep) + (if b then [x] else [])
  {
    if s != [] {
      assert (s + [x])[1..] == s[1..] + [x];
      assert (keep + [b])[1..] == keep[1..] + [b];
      SelectAppend(s[1..], keep[1..], x, b);
    }
  }

  // ---------------------------------------------------------------------------------------
  // Bullets

  /** The bullets not marked for removal, in their original order. */
  function UnmarkedBullets(bs: seq<Bullet>): (r: seq<Bullet>)
    ensures forall j | 0 <= j < |r| :: !r[j].shouldBeDestroyed
    ensures |r| == |bs| - |MarkedBullets(bs)|
  {
    if bs == [] then []
    else (if bs[0].shouldBeDestroyed then [] else [bs[0]]) + UnmarkedBullets(bs[1..])
  }

  /** No unmarked bullet is lost. */
  lemma {:induction false} UnmarkedBulletsKeepsUnmarked(bs: seq<Bullet>, b: Bullet)
    requires b in bs && !b.shouldBeDestroyed
    ensures b in UnmarkedBullets(bs)
  {
    if bs[0] != b {
      assert b in bs[1..];
      UnmarkedBulletsKeepsUnmarked(bs[1..], b);
    }
  }

  function MarkedBullets(bs: seq<Bullet>): seq<Bullet> {
    if bs == [] then []
    else (if bs[0].shouldBeDestroyed then [bs[0]] else []) + MarkedBullets(bs[1..])
  }

  /** The bullet result is the selection of the unmarked bullets. */
  lemma {:induction false} UnmarkedBulletsSelects(bs: seq<Bullet>)
    ensures UnmarkedBullets(bs) == Select(bs, seq(|bs|, i requires 0 <= i < |bs| => !bs[i].shouldBeDestroyed))
  {
    if bs != [] {
      UnmarkedBulletsSelects(bs[1..]);
      assert seq(|bs|, i requires 0 <= i < |bs| => !bs[i].shouldBeDestroyed)[1..]
          == seq(|bs[1..]|, i requires 0 <= i < |bs[1..]| => !bs[1..][i].shouldBeDestroyed);
    }
  }

  /**
   * One step of the bullet loop keeps its invariant: the survivors of `all` are the bullets
   * before index i followed by the survivors from i on. A marked bullet is erased and i stays;
   * an unmarked one is passed.
   */
  lemma EraseBulletStep(all: seq<Bullet>, bs: seq<Bullet>, i: nat)
    requires i < |bs| && UnmarkedBullets(all) == bs[..i] + UnmarkedBullets(bs[i..])
    ensures bs[i].shouldBeDestroyed ==>
      var rest := bs[..i] + bs[i + 1..];
      UnmarkedBullets(all) == rest[..i] + UnmarkedBullets(rest[i..])
    ensures !bs[i].shouldBeDestroyed ==> UnmarkedBullets(all) == bs[..i + 1] + UnmarkedBullets(bs[i + 1..])
  {
    UnmarkedBulletsAt(bs, i);
    if bs[i].shouldBeDestroyed {
      var rest := bs[..i] + bs[i + 1..];
      assert rest[..i] == bs[..i];
      assert rest[i..] == bs[i + 1..];
    } else {
      var u := UnmarkedBullets(bs[i + 1..]);
      assert bs[..i + 1] == bs[..i] + [bs[i]];
      assert bs[..i] + ([bs[i]] + u) == bs[..i] + [bs[i]] + u;
    }
  }

  /** The survivors from index i on: the bullet at i if unmarked, then the survivors after it. */
  lemma UnmarkedBulletsAt(bs: seq<Bullet>, i: nat)
    requires i < |bs|
    ensures UnmarkedBullets(bs[i..]) == (if bs[i].shouldBeDestroyed then [] else [bs[i]]) + UnmarkedBullets(bs[i + 1..])
  {
    assert bs[i..][1..] == bs[i + 1..];
  }

  // ---------------------------------------------------------------------------------------
  // Enemies

  /**
   * The enemy loop as written: a marked enemy is erased and the loop index still advances,
   * so the enemy after it is kept without being examined.
   */
  function SkipErase(es: seq<Enemy>): (r: seq<Enemy>)
    ensures |r| <= |es|
    ensures forall e | e in r :: e in es
  {
    if es == [] then []
    else if es[0].shouldBeDestroyed then
      if |es| == 1 then [] else [es[1]] + SkipErase(es[2..])
    else [es[0]] + SkipErase(es[1..])
  }

  /**
   * Which enemies the loop keeps: every unmarked one, every enemy right after an erased one,
   * and nothing else; no two neighbours are both erased.
   */
  function SkipMask(es: seq<Enemy>): (keep: seq<bool>)
    ensures |keep| == |es|
    ensures forall i | 0 <= i < |es| :: !es[i].shouldBeDestroyed ==> keep[i]
    ensures forall i | 0 <= i < |es| :: !keep[i] ==> es[i].shouldBeDestroyed
    ensures forall i | 0 < i < |es| :: !keep[i - 1] ==> keep[i]
    ensures forall i | 0 <= i < |es| :: keep[i] && es[i].shouldBeDestroyed ==> 0 < i && !keep[i - 1]
  {
    if es == [] then []
    else if es[0].shouldBeDestroyed then
      if |es| == 1 then [false] else [false, true] + SkipMask(es[2..])
    else [true] + SkipMask(es[1..])
  }

  /** The enemy result is an order-preserving subsequence: the selection by SkipMask. */
  lemma {:induction false} SkipEraseSelects(es: seq<Enemy>)
    ensures SkipErase(es) == Select(es, SkipMask(es))
    decreases |es|
  {
    if es == [] {
    } else if es[0].shouldBeDestroyed {
      if |es| > 1 {
        SkipEraseSelects(es[2..]);
        assert es[1..][1..] == es[2..];
        assert ([false, true] + SkipMask(es[2..]))[1..][1..] == SkipMask(es[2..]);
      }
    } else {
      SkipEraseSelects(es[1..]);
    }
  }

  /**
   * One step of the enemy loop keeps its invariant. A marked enemy is erased and i still
   * advances, past the enemy that moved into its slot; when it was the last one, the loop
   * ends with i one past the end.
   */
  lemma EraseEnemyStep(all: seq<Enemy>, es: seq<Enemy>, i: nat)
    requires i < |es| && SkipErase(all) == es[..i] + SkipErase(es[i..])
    ensures es[i].shouldBeDestroyed && i + 1 < |es| ==>
      var rest := es[..i] + es[i + 1..];
      SkipErase(all) == rest[..i + 1] + SkipErase(rest[i + 1..])
    ensures es[i].shouldBeDestroyed && i + 1 == |es| ==> SkipErase(all) == es[..i]
    ensures !es[i].shouldBeDestroyed ==> SkipErase(all) == es[..i + 1] + SkipErase(es[i + 1..])
  {
    assert es[i..][1..] == es[i + 1..];
    if es[i].shouldBeDestroyed {
      if i + 1 < |es| {
        assert es[i..][1] == es[i + 1] && es[i..][2..] == es[i + 2..];
        var rest := es[..i] + es[i + 1..];
        assert rest[..i + 1] == es[..i] + [es[i + 1]];
        assert rest[i + 1..] == es[i + 2..];
      }
    } else {
      assert es[..i + 1] == es[..i] + [es[i]];
    }
  }

  /** Of two marked enemies in a row, the loop erases the first and keeps the second. */
  lemma MarkedAfterErasedSurvives(e1: Enemy, e2: Enemy)
    requires e1.shouldBeDestroyed && e2.shouldBeDestroyed
    ensures SkipErase([e1, e2]) == [e2]
  {
    assert [e1, e2][2..] == [];
  }
}
