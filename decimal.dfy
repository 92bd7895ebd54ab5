/**
 * Decimal rendering of natural numbers, as Python's f-string `f"{n}"` writes them.
 * The synthetic identifiers `reviewer_<n>` and `review_<k>` are built with it, so
 * their distinctness rests on this rendering being injective.
 */
module Decimal {

  /** The ASCII digit for `d`. */
  function DigitChar(d: nat): (c: char)
    requires d < 10
    ensures '0' <= c <= '9'
  {
    (('0' as int) + d) as char
  }

  /** The shortest decimal rendering of `n`: no sign, no leading zeros. */
  function NatToString(n: nat): (s: string)
    ensures 1 <= |s|
    ensures n < 10 <==> |s| == 1
    ensures s[|s| - 1] == DigitChar(n % 10)
  {
    if n < 10 then [DigitChar(n)] else NatToString(n / 10) + [DigitChar(n % 10)]
  }

  /** Two numbers with the same rendering are the same number. */
  lemma {:induction false} NatToStringInjective(a: nat, b: nat)
    requires NatToString(a) == NatToString(b)
    ensures a == b
  {
    var s := NatToString(a);
    assert a % 10 == b % 10 by {
      assert DigitChar(a % 10) == s[|s| - 1] == DigitChar(b % 10);
    }
    if 10 <= a {
      assert 10 <= b;
      assert NatToString(a / 10) == s[..|s| - 1] == NatToString(b / 10);
      NatToStringInjective(a / 10, b / 10);
    }
  }
}
