// JavaScript numbers are IEEE 754 binary64 doubles: the exact result of an
// operation is rounded to the nearest number with a 53-bit significand, ties
// going to the even significand.  The renderer's sprite columns depend on that
// rounding; module BrowserGeometry writes its arithmetic with `Round` after
// every operation.  Numbers below the smallest normal double round to
// multiples of 2^-1074 as subnormals do; overflow to infinity, past the
// largest exponent 1023, is not modelled: the renderer's values stay far
// from it.

module Doubles {

  /** 2^52: a double's significand has 52 bits after the leading one. */
  const TwoTo52: real := 4503599627370496.0

  /** The integer nearest to q, ties going to the even one. */
  function RoundHalfEven(q: real): (r: int)
    ensures q - 0.5 <= r as real <= q + 0.5
  {
    var f := q.Floor;
    var d := q - f as real;
    if d < 0.5 then f else if d > 0.5 then f + 1 else if f % 2 == 0 then f else f + 1
  }

  /** A non-negative a whose binary exponent has the power p = 2^e, rounded to
      53 significant bits: the nearest multiple of p / 2^52, ties to the even
      multiple.  With p = 2^-1022 this is also the rounding of the subnormal
      range below it. */
  function RoundAt(a: real, p: real): (r: real)
    requires a >= 0.0 && p > 0.0
    ensures r >= 0.0
  {
    var u := p / TwoTo52;
    var m := RoundHalfEven(a / u);
    m as real * u
  }

  /** Rounds a >= p = 2^e by finding its exponent upwards from e; exponents
      past 1023, where doubles overflow, are not searched. */
  function RoundUp(a: real, e: int, p: real): (r: real)
    requires a >= 0.0 && p > 0.0
    ensures r >= 0.0
    decreases 1023 - e
  {
    if e >= 1023 || a < 2.0 * p then RoundAt(a, p) else RoundUp(a, e + 1, 2.0 * p)
  }

  /** Rounds a < 2p, p = 2^e, by finding its exponent downwards from e, down to
      the smallest normal exponent -1022. */
  function RoundDown(a: real, e: int, p: real): (r: real)
    requires a >= 0.0 && p > 0.0
    ensures r >= 0.0
    decreases e + 1022
  {
    if e <= -1022 || a >= p then RoundAt(a, p) else RoundDown(a, e - 1, p / 2.0)
  }

  /** The double nearest to x, ties to the even significand. */
  function Round(x: real): (r: real)
    ensures x > 0.0 ==> r >= 0.0
    ensures x < 0.0 ==> r <= 0.0
  {
    if x == 0.0 then 0.0
    else
      var a := if x < 0.0 then -x else x;
      var m := if a >= 1.0 then RoundUp(a, 0, 1.0) else RoundDown(a, -1, 0.5);
      if x < 0.0 then -m else m
  }

  /** Single evaluations of `Round`, which KnownDoubles combines. */
  lemma RoundOneTenth()
    ensures Round((1.0 / 10.0)) == (3602879701896397.0 / 36028797018963968.0)
  {
  }

  lemma RoundOneFifth()
    ensures Round((1.0 / 5.0)) == (3602879701896397.0 / 18014398509481984.0)
  {
  }

  lemma RoundTheSum()
    ensures Round((10808639105689191.0 / 36028797018963968.0)) == (1351079888211149.0 / 4503599627370496.0)
  {
  }

  lemma RoundThreeTenths()
    ensures Round((3.0 / 10.0)) == (5404319552844595.0 / 18014398509481984.0)
  {
  }

  lemma RoundOneThird()
    ensures Round((1.0 / 3.0)) == (6004799503160661.0 / 18014398509481984.0)
  {
  }

  /** The familiar doubles: 0.1 and 0.2 are not exact, their sum is not the
      double nearest 0.3, and 1/3 rounds down. */
  lemma KnownDoubles()
    ensures Round(0.1) == (3602879701896397.0 / 36028797018963968.0) && Round(0.1) > 0.1
    ensures Round(0.2) == (3602879701896397.0 / 18014398509481984.0)
    ensures Round(Round(0.1) + Round(0.2)) == (1351079888211149.0 / 4503599627370496.0)
    ensures Round(Round(0.1) + Round(0.2)) != Round(0.3)
    ensures Round(1.0 / 3.0) == (6004799503160661.0 / 18014398509481984.0) && Round(1.0 / 3.0) < 1.0 / 3.0
  {
    RoundOneTenth();
    RoundOneFifth();
    RoundTheSum();
    RoundThreeTenths();
    RoundOneThird();
  }
}
