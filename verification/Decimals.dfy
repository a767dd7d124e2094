/** str(n) for a natural number. */
module Decimals {

  function Digits(n: nat): (d: string)
    ensures d != []
  {
    (if n < 10 then [] else Digits(n / 10)) + [('0' as int + n % 10) as char]
  }

  function Value(digits: string): int {
    if digits == [] then 0 else Value(digits[..|digits| - 1]) * 10 + (digits[|digits| - 1] as int - '0' as int)
  }

  lemma ValueOfMore(digits: string, c: char)
    ensures Value(digits + [c]) == Value(digits) * 10 + (c as int - '0' as int)
  {
    assert (digits + [c])[..|digits|] == digits;
  }

  /** The digits of a number stand for it, without a leading zero. */
  lemma {:induction false} DigitsStandFor(n: nat)
    ensures Value(Digits(n)) == n && forall i :: 0 <= i < |Digits(n)| ==> '0' <= Digits(n)[i] <= '9'
    ensures n > 0 ==> Digits(n)[0] != '0'
  {
    hide Value;
    var last := ('0' as int + n % 10) as char;
    if n < 10 {
      ValueOfMore([], last);
      NoValue();
      assert [] + [last] == [last];
    } else {
      DigitsStandFor(n / 10);
      ValueOfMore(Digits(n / 10), last);
    }
  }

  lemma NoValue()
    ensures Value([]) == 0
  {
  }
}
