/**
 * Python's built-in round() on a number: to the nearest integer, with
 * halves going to the even neighbour. Used for the display heights of the
 * scanner and for the slot counts of the score.
 */
module Rounding {

  function RoundHalfEven(x: real): (r: int)
    ensures (r as real) - 0.5 <= x <= (r as real) + 0.5
    ensures x == (r as real) - 0.5 || x == (r as real) + 0.5 ==> r % 2 == 0
  {
    var f := x.Floor;
    var frac := x - f as real;
    if frac < 0.5 then f
    else if frac > 0.5 then f + 1
    else if f % 2 == 0 then f
    else f + 1
  }

  /** An integer is its own rounding. */
  lemma RoundInteger(n: int)
    ensures RoundHalfEven(n as real) == n
  {
  }
}
