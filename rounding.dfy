/** Hours arithmetic shared by the ledger and the reports: elapsed time in
    hours and rounding to hundredths as `Math.round(x * 100) / 100` does it. */
module Rounding {

  /** Milliseconds in one hour (1000 * 60 * 60). */
  const MsPerHour: int := 3600000

  /** Elapsed hours between two millisecond timestamps, unrounded. */
  function HoursBetween(from: int, to: int): (h: real)
    ensures from <= to ==> h >= 0.0
    ensures h * (MsPerHour as real) == (to - from) as real
  {
    (to - from) as real / (MsPerHour as real)
  }

  /** `Math.round(x * 100) / 100`: round half up to hundredths. JavaScript's
      `Math.round` is `floor(y + 0.5)` for every finite `y`. */
  function Round2(x: real): (r: real)
    ensures x - 0.005 < r <= x + 0.005
    ensures IsHundredths(r)
  {
    ((x * 100.0 + 0.5).Floor as real) / 100.0
  }

  /** `x` is a whole number of hundredths. */
  predicate IsHundredths(x: real)
  {
    (x * 100.0).Floor as real == x * 100.0
  }

  /** A value already on the hundredths grid is left as it is. */
  lemma Round2Fixed(x: real)
    requires IsHundredths(x)
    ensures Round2(x) == x
  {
    var n := (x * 100.0).Floor;
    assert (x * 100.0 + 0.5).Floor == n;
  }

  /** Rounding twice is rounding once. */
  lemma Round2Idempotent(x: real)
    ensures Round2(Round2(x)) == Round2(x)
  {
    Round2Fixed(Round2(x));
  }

  /** Rounding never reverses the order of two values. */
  lemma Round2Monotone(x: real, y: real)
    requires x <= y
    ensures Round2(x) <= Round2(y)
  {
    var a, b := x * 100.0 + 0.5, y * 100.0 + 0.5;
    assert a <= b;
    assert a.Floor as real <= a && b < b.Floor as real + 1.0;
    assert a.Floor <= b.Floor;
  }

  /** Rounding keeps non-negative values non-negative and positive
      values of at least half a hundredth positive. */
  lemma Round2Sign(x: real)
    ensures x >= 0.0 ==> Round2(x) >= 0.0
    ensures x >= 0.005 ==> Round2(x) > 0.0
    ensures x < 0.005 ==> Round2(x) <= 0.0
  {
    if x >= 0.0 {
      assert (x * 100.0 + 0.5).Floor >= 0;
    }
    if x >= 0.005 {
      assert (x * 100.0 + 0.5).Floor >= 1;
    }
    if x < 0.005 {
      assert x * 100.0 + 0.5 < 1.0;
    }
  }

  /** The worked example behind computing earnings from unrounded hours:
      0.55818 h at a wage of 11 earns 6.14, while rounding the hours to
      0.56 first would give 6.16. */
  lemma EarningsExample()
    ensures Round2(0.55818 * 11.0) == 6.14
    ensures Round2(0.55818) == 0.56
    ensures Round2(Round2(0.55818) * 11.0) == 6.16
  {
    assert (0.55818 * 11.0 * 100.0 + 0.5).Floor == 614;
    assert (0.55818 * 100.0 + 0.5).Floor == 56;
    assert (0.56 * 11.0 * 100.0 + 0.5).Floor == 616;
  }
}
