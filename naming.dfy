/**
 * File and key names built as "{name}{digit}", as the piano and the
 * trimmer both do for an octave number.
 */
module Naming {

  /** The decimal digit of d. */
  function Digit(d: nat): (c: char)
    requires d < 10
    ensures '0' <= c <= '9' && (c as int) - ('0' as int) == d
  {
    (('0' as int) + d) as char
  }

  /** "{name}{d}": the name with the digit of d appended. */
  function WithDigit(name: string, d: nat): (r: string)
    requires d < 10
    ensures |r| == |name| + 1 && r[..|name|] == name && r[|name|] == Digit(d)
  {
    name + [Digit(d)]
  }

  /** Two such names are equal only when both the name and the digit are. */
  lemma WithDigitInjective(a: string, d: nat, b: string, e: nat)
    requires d < 10 && e < 10 && WithDigit(a, d) == WithDigit(b, e)
    ensures a == b && d == e
  {
    assert |a| == |b|;
    assert a == WithDigit(a, d)[..|a|];
    assert Digit(d) == WithDigit(a, d)[|a|];
  }
}
