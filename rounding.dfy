/** `math.Round` over reals, and the three-decimal rounding the averaging applies. */
module Rounding {

  /** `math.Round`: the nearest integer, halves rounded away from zero. */
  function Round(x: real): (n: int)
    ensures -0.5 <= n as real - x <= 0.5
    ensures n as real - x == 0.5 ==> x >= 0.0
    ensures x - n as real == 0.5 ==> x < 0.0
  {
    if x >= 0.0 then (x + 0.5).Floor else -((-x + 0.5).Floor)
  }

  /** Whole numbers are left alone. */
  lemma RoundWhole(k: int)
    ensures Round(k as real) == k
  {
  }

  /** `math.Round(x*1000)/1000`: `x` to three decimal places. */
  function RoundMilli(x: real): real
  {
    (Round(x * 1000.0) as real) / 1000.0
  }

  /** Three-decimal rounding moves a value by at most half a thousandth. */
  lemma RoundMilliClose(x: real)
    ensures -0.0005 <= RoundMilli(x) - x <= 0.0005
  {
    var n := Round(x * 1000.0);
    assert -0.5 <= n as real - x * 1000.0 <= 0.5;
  }

  /** A value that already has three decimals is left unchanged. */
  lemma RoundMilliExact(k: int)
    ensures RoundMilli((k as real) / 1000.0) == (k as real) / 1000.0
  {
    assert (k as real) / 1000.0 * 1000.0 == k as real;
    RoundWhole(k);
  }
}
