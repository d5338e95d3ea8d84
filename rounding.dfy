/** Python's round(x, n) on exact reals, and the facts the analysis views
    need about it. The views round to one place (scale 10) or to two
    (scale 100), and the lemmas are stated for those two. */
module Rounding {
  /** Python's round(x, n) for 10^n = scale, with ties rounded up. */
  function RoundTo(x: real, scale: nat): (r: real)
    requires scale > 0
  {
    (x * scale as real + 0.5).Floor as real / scale as real
  }

  /** One or two decimal places. */
  predicate Places(scale: nat)
  {
    scale == 10 || scale == 100
  }

  /** Rounding moves a value by at most half a unit of the last kept place. */
  lemma RoundClose(x: real, scale: nat)
    requires Places(scale)
    ensures x - 0.5 / scale as real < RoundTo(x, scale) <= x + 0.5 / scale as real
  {
  }

  lemma FloorMono(a: real, b: real)
    requires a <= b
    ensures a.Floor <= b.Floor
  {
  }

  /** Rounding never reverses an order. */
  lemma RoundMono(x: real, y: real, scale: nat)
    requires Places(scale) && x <= y
    ensures RoundTo(x, scale) <= RoundTo(y, scale)
  {
    if scale == 10 {
      FloorMono(x * 10.0 + 0.5, y * 10.0 + 0.5);
    } else {
      FloorMono(x * 100.0 + 0.5, y * 100.0 + 0.5);
    }
  }

  /** Rounding to two places is positive only for a positive value, and a
      positive value does not round below 0. */
  lemma RoundSign(x: real)
    ensures RoundTo(x, 100) > 0.0 ==> x > 0.0
    ensures x > 0.0 ==> RoundTo(x, 100) >= 0.0
  {
    assert RoundTo(0.0, 100) == 0.0;
    if x <= 0.0 {
      RoundMono(x, 0.0, 100);
    } else {
      RoundMono(0.0, x, 100);
    }
  }

  /** Rounding keeps a value in [0, 100] there, and 100 stays 100. */
  lemma RoundBounded(x: real, scale: nat)
    requires 0.0 <= x <= 100.0 && Places(scale)
    ensures 0.0 <= RoundTo(x, scale) <= 100.0
    ensures x == 100.0 ==> RoundTo(x, scale) == 100.0
  {
    RoundMono(0.0, x, scale);
    RoundMono(x, 100.0, scale);
    assert RoundTo(0.0, scale) == 0.0 && RoundTo(100.0, scale) == 100.0;
  }
}
