/**
 * Random::GetRandomFloat. raylib's GetRandomValue(0, 10000) is not modelled; its result is the
 * parameter `draw`, which raylib keeps within [0, 10000].
 */
module Random {

  const DrawRange := 10000

  /**
   * The affine image of the draw k in [0, 10000]: min + k / 10000 * (max - min). It lies
   * between min and max (in either order), is min for k = 0 and max for k = 10000, and grows
   * with k when min <= max.
   */
  function GetRandomFloat(min: real, max: real, draw: int): (r: real)
    requires 0 <= draw <= DrawRange
    ensures min <= max ==> min <= r <= max
    ensures max <= min ==> max <= r <= min
    ensures draw == 0 ==> r == min
    ensures draw == DrawRange ==> r == max
  {
    var f := draw as real / DrawRange as real;
    assert 0.0 <= f <= 1.0;
    var d := max - min;
    ScaledFractionBounds(f, d);
    assert min + d == max;
    min + f * d
  }

  lemma ScaledFractionBounds(f: real, d: real)
    requires 0.0 <= f <= 1.0
    ensures d >= 0.0 ==> 0.0 <= f * d <= d
    ensures d <= 0.0 ==> d <= f * d <= 0.0
  {
  }

  /** A larger draw never gives a smaller value when min <= max. */
  lemma GetRandomFloatMonotone(min: real, max: real, k1: int, k2: int)
    requires min <= max && 0 <= k1 <= k2 <= DrawRange
    ensures GetRandomFloat(min, max, k1) <= GetRandomFloat(min, max, k2)
  {
    var f1, f2 := k1 as real / DrawRange as real, k2 as real / DrawRange as real;
    assert f1 <= f2;
    assert f1 * (max - min) <= f2 * (max - min);
  }
}
