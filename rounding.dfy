/** Integer models of `Math.round` as the actions use it: a percentage for quiz scores and
    course progress, and one decimal place for the testimonial average. */
module Rounding {

  /** `Math.round(part / whole * 100)`: the integer nearest to 100·part/whole, with halves
      rounded up. */
  function RoundedPercent(part: nat, whole: nat): (r: nat)
    requires whole > 0
    ensures 2 * whole * r - whole <= 200 * part < 2 * whole * r + whole
  {
    (200 * part + whole) / (2 * whole)
  }

  /** A fraction of a whole never rounds above 100. */
  lemma PercentAtMostHundred(part: nat, whole: nat)
    requires 0 < whole && part <= whole
    ensures RoundedPercent(part, whole) <= 100
  {
    var r := RoundedPercent(part, whole);
    if r > 100 {
      assert 2 * whole * r >= 2 * whole * 101 by { MulMono(2 * whole, 101, r); }
      assert false;
    }
  }

  /** Every part counted gives exactly 100. */
  lemma PercentOfWhole(whole: nat)
    requires whole > 0
    ensures RoundedPercent(whole, whole) == 100
  {
    var r := RoundedPercent(whole, whole);
    if r < 100 {
      assert 2 * whole * r <= 2 * whole * 99 by { MulMono(2 * whole, r, 99); }
    } else if r > 100 {
      assert 2 * whole * r >= 2 * whole * 101 by { MulMono(2 * whole, 101, r); }
    }
  }

  /** Below 200 parts, 100 is reached only when every part is counted. */
  lemma HundredOnlyWhenWhole(part: nat, whole: nat)
    requires 0 < whole < 200 && part <= whole
    requires RoundedPercent(part, whole) == 100
    ensures part == whole
  {
  }

  /** From 200 parts on, one missing part still rounds to 100. */
  lemma HundredWithOneMissing(whole: nat)
    requires whole >= 200
    ensures RoundedPercent(whole - 1, whole) == 100
  {
    var r := RoundedPercent(whole - 1, whole);
    if r < 100 {
      assert 2 * whole * r <= 2 * whole * 99 by { MulMono(2 * whole, r, 99); }
    } else if r > 100 {
      assert 2 * whole * r >= 2 * whole * 101 by { MulMono(2 * whole, 101, r); }
    }
  }

  /** Counting more parts never lowers the rounded percentage. */
  lemma PercentMonotone(p: nat, q: nat, whole: nat)
    requires whole > 0 && p <= q
    ensures RoundedPercent(p, whole) <= RoundedPercent(q, whole)
  {
    var a, b := RoundedPercent(p, whole), RoundedPercent(q, whole);
    if a > b {
      assert 2 * whole * a >= 2 * whole * (b + 1) by { MulMono(2 * whole, b + 1, a); }
      assert false;
    }
  }

  /** `Math.round(sum / count * 10)`: an average in tenths, halves rounded up. */
  function RoundedTenths(sum: int, count: nat): (r: int)
    requires count > 0
    ensures 2 * count * r - count <= 20 * sum < 2 * count * r + count
  {
    (20 * sum + count) / (2 * count)
  }

  /** An average of values between lo and hi lies, in tenths, between 10·lo and 10·hi. */
  lemma TenthsWithin(sum: int, count: nat, lo: int, hi: int)
    requires count > 0 && lo * count <= sum <= hi * count
    ensures 10 * lo <= RoundedTenths(sum, count) <= 10 * hi
  {
    var r := RoundedTenths(sum, count);
    assert 20 * lo * count <= 20 * sum <= 20 * hi * count;
    if r < 10 * lo {
      MulMonoInt(2 * count, r, 10 * lo - 1);
    }
    if r > 10 * hi {
      MulMonoInt(2 * count, 10 * hi + 1, r);
    }
  }

  lemma MulMono(k: nat, a: nat, b: nat)
    requires a <= b
    ensures k * a <= k * b
  {
  }

  lemma MulMonoInt(k: nat, a: int, b: int)
    requires a <= b
    ensures k * a <= k * b
  {
  }
}
