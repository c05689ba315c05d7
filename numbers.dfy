/** Decimal rendering of integers, as PHP's `%d` and integer-to-string conversion produce it. */
module Numbers {

  /** A character that can occur in the decimal text of an integer. */
  predicate IsNumeral(c: char) {
    ('0' <= c <= '9') || c == '-'
  }

  function Digit(d: nat): (c: char)
    requires d < 10
    ensures '0' <= c <= '9'
  {
    "0123456789"[d]
  }

  /** Decimal digits of `n`, most significant first, no leading zeros. */
  function NatText(n: nat): (s: string)
    ensures |s| > 0
    ensures forall i :: 0 <= i < |s| ==> '0' <= s[i] <= '9'
    decreases n
  {
    if n < 10 then [Digit(n)] else NatText(n / 10) + [Digit(n % 10)]
  }

  /** Decimal text of an integer, with a leading minus sign when negative. */
  function IntText(n: int): (s: string)
    ensures |s| > 0
    ensures forall i :: 0 <= i < |s| ==> IsNumeral(s[i])
  {
    if n < 0 then "-" + NatText(-n) else NatText(n)
  }
}
