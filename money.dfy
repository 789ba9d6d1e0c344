/**
 * Money rounding. Amounts are exact reals; the server rounds with
 * `Math.round(x * 100) / 100`, which takes the floor of `x * 100 + 1/2`
 * (ties go toward +infinity, not away from zero).
 */
module Money {

  /** Whole cents nearest to `x`, ties rounded up: `Math.round(x * 100)`. */
  function Cents(x: real): int {
    (x * 100.0 + 0.5).Floor
  }

  /** The value of `c` cents. */
  function Dollars(c: int): real {
    c as real / 100.0
  }

  /** `Math.round(x * 100) / 100`. */
  function Round2(x: real): real {
    Dollars(Cents(x))
  }

  /** The rounding moves a value by at most half a cent and keeps its cents. */
  lemma Round2Nearest(x: real)
    ensures x - 0.005 < Round2(x) <= x + 0.005
    ensures Cents(Round2(x)) == Cents(x)
  {
  }

  /** A whole number of cents is left alone by the rounding. */
  lemma WholeCentsAreFixed(c: int)
    ensures Cents(Dollars(c)) == c
    ensures Round2(Dollars(c)) == Dollars(c)
  {
  }

  /** Rounding twice is rounding once. */
  lemma Round2Idempotent(x: real)
    ensures Round2(Round2(x)) == Round2(x)
  {
    WholeCentsAreFixed(Cents(x));
  }

  /**
   * The classification thresholds `rounded > 0.009` and `rounded < -0.009`
   * on a rounded balance are "at least one cent" and "at most minus one cent".
   */
  lemma DeadZone(x: real)
    ensures Round2(x) > 0.009 <==> Cents(x) >= 1
    ensures Round2(x) < -0.009 <==> Cents(x) <= -1
  {
  }

  /** The sweep's thresholds on whole-cent amounts, stated on cents. */
  lemma DeadZoneOnCents(c: int)
    ensures Dollars(c) > 0.009 <==> c >= 1
    ensures Dollars(c) <= 0.009 <==> c <= 0
    ensures Dollars(c) >= -0.009 <==> c >= 0
  {
  }

  /** Every tie, half a cent above a whole cent, rounds up, on both sides of zero (not away from zero). */
  lemma TiesRoundUp(c: int)
    ensures Cents((c as real + 0.5) / 100.0) == c + 1
  {
    assert ((c as real + 0.5) / 100.0) * 100.0 + 0.5 == (c + 1) as real;
  }
}
