/** The arithmetic the engine applies to scores: clamping to the 0..10 scale
    and Python's `round`, which rounds halves to the even neighbour. Scores are
    exact reals here; the binary floating-point representation is not modelled. */
module Rounding {

  /** `max(0, min(10, x))`. */
  function Clamp(x: real): (r: real)
    ensures 0.0 <= r <= 10.0
    ensures 0.0 <= x <= 10.0 ==> r == x
    ensures x < 0.0 ==> r == 0.0
    ensures x > 10.0 ==> r == 10.0
  {
    if x < 0.0 then 0.0 else if x > 10.0 then 10.0 else x
  }

  /** Python's `round(x)`: the nearest integer, a tie going to the even one. */
  function RoundHalfEven(x: real): (k: int)
    ensures -0.5 <= k as real - x <= 0.5
    ensures (k as real - x == 0.5 || x - k as real == 0.5) ==> k % 2 == 0
  {
    var f := x.Floor;
    var d := x - f as real;
    if d < 0.5 then f
    else if d > 0.5 then f + 1
    else if f % 2 == 0 then f
    else f + 1
  }

  /** The two properties of RoundHalfEven determine it: any integer that is
      strictly nearer than a half, or exactly a half away and even, is the one. */
  lemma RoundHalfEvenUnique(x: real, k: int)
    requires -0.5 <= k as real - x <= 0.5
    requires (k as real - x == 0.5 || x - k as real == 0.5) ==> k % 2 == 0
    ensures RoundHalfEven(x) == k
  {
  }

  /** `r` is a multiple of one tenth. */
  predicate IsTenths(r: real) {
    (10.0 * r).Floor as real == 10.0 * r
  }

  /** Python's `round(x, 1)`. */
  function Round1(x: real): (r: real)
    ensures IsTenths(r)
    ensures -0.05 <= r - x <= 0.05
  {
    var k := RoundHalfEven(10.0 * x);
    assert (10.0 * (k as real / 10.0)).Floor == k;
    k as real / 10.0
  }

  /** Rounding to tenths keeps a value on the 0..10 scale. */
  lemma Round1InRange(x: real)
    requires 0.0 <= x <= 10.0
    ensures 0.0 <= Round1(x) <= 10.0
  {
  }

  /** Rounding a value that already is a multiple of a tenth changes nothing. */
  lemma Round1OfTenths(x: real)
    requires IsTenths(x)
    ensures Round1(x) == x
  {
    RoundHalfEvenUnique(10.0 * x, (10.0 * x).Floor);
  }

  /** The treatment every numeric evaluation field receives: clamp, then round
      to one decimal. The result is on the scale, a multiple of a tenth, and
      within a twentieth of the clamped value. */
  function ClampRound(x: real): (r: real)
    ensures 0.0 <= r <= 10.0
    ensures IsTenths(r)
    ensures -0.05 <= r - Clamp(x) <= 0.05
  {
    Round1InRange(Clamp(x));
    Round1(Clamp(x))
  }
}
