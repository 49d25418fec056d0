/**
 * The two rounding operations of the scoring code, on exact reals.
 *
 * `Number(x.toFixed(2))` rounds to the nearest hundredth, a tie going to the
 * larger magnitude (toFixed formats the absolute value and prefixes the sign).
 * `Math.round(x)` rounds to the nearest integer, a tie going towards +infinity.
 */
module Numeric {

  /** r is a whole number of hundredths. */
  predicate IsHundredths(r: real) {
    (r * 100.0).Floor as real == r * 100.0
  }

  function Min(a: real, b: real): (r: real)
    ensures r <= a && r <= b
    ensures r == a || r == b
  {
    if a <= b then a else b
  }

  /** Rounds a non-negative real to hundredths, ties upwards. */
  function RoundHalfUp2(x: real): (r: real)
    ensures IsHundredths(r)
    ensures x - 0.005 < r <= x + 0.005
  {
    var n := (x * 100.0 + 0.5).Floor;
    assert (n as real) * 100.0 / 100.0 == n as real;
    (n as real) / 100.0
  }

  /** `Number(x.toFixed(2))`. */
  function Round2(x: real): (r: real)
    ensures IsHundredths(r)
    ensures x - 0.005 <= r <= x + 0.005
    ensures x >= 0.0 ==> x - 0.005 < r
    ensures x <= 0.0 ==> r < x + 0.005
    ensures x >= 0.0 ==> r >= 0.0
    ensures x <= 0.0 ==> r <= 0.0
  {
    if x < 0.0 then
      var p := RoundHalfUp2(-x);
      NegatedHundredths(p);
      -p
    else
      RoundHalfUp2(x)
  }

  lemma NegatedHundredths(p: real)
    requires IsHundredths(p)
    ensures IsHundredths(-p)
  {
    var k := (p * 100.0).Floor;
    assert -p * 100.0 == (-k) as real;
  }

  /** A tie goes to the larger magnitude on either side of zero. */
  lemma Round2TiesAwayFromZero()
    ensures Round2(0.625) == 0.63 && Round2(-0.625) == -0.63
    ensures Round2(0.005) == 0.01 && Round2(-0.005) == -0.01
  {
    assert (0.625 * 100.0 + 0.5).Floor == 63;
    assert (0.005 * 100.0 + 0.5).Floor == 1;
  }

  /** `Math.round(x)`. */
  function MathRound(x: real): (r: int)
    ensures x - 0.5 < r as real <= x + 0.5
  {
    (x + 0.5).Floor
  }

  lemma RoundHalfUp2Monotone(x: real, y: real)
    requires 0.0 <= x <= y
    ensures RoundHalfUp2(x) <= RoundHalfUp2(y)
  {
    assert (x * 100.0 + 0.5).Floor <= (y * 100.0 + 0.5).Floor;
  }

  /** Rounding never reverses the order of two values. */
  lemma Round2Monotone(x: real, y: real)
    requires x <= y
    ensures Round2(x) <= Round2(y)
  {
    if 0.0 <= x {
      RoundHalfUp2Monotone(x, y);
    } else if y < 0.0 {
      RoundHalfUp2Monotone(-y, -x);
    }
  }

  /** A value that already is a whole number of hundredths is left unchanged. */
  lemma Round2Exact(x: real)
    requires IsHundredths(x)
    ensures Round2(x) == x
  {
    var k := (x * 100.0).Floor;
    if x < 0.0 {
      assert (-x * 100.0 + 0.5).Floor == -k;
    } else {
      assert (x * 100.0 + 0.5).Floor == k;
    }
  }

  /** Integers are whole numbers of hundredths. */
  lemma IntegerIsHundredths(n: int)
    ensures IsHundredths(n as real)
  {
    assert (n as real * 100.0).Floor == n * 100;
  }

  /** `Math.round` of a whole number is that number. */
  lemma MathRoundExact(n: int)
    ensures MathRound(n as real) == n
  {
  }
}
