/** Decimal notation of natural numbers, as container names and log keys use it. */
module Decimal {

  function Digit(d: nat): char
    requires d < 10
  {
    '0' + d as char
  }

  function ToString(n: nat): string {
    if n < 10 then [Digit(n)] else ToString(n / 10) + [Digit(n % 10)]
  }

  function Value(s: string): int {
    if s == "" then 0 else 10 * Value(s[..|s| - 1]) + (s[|s| - 1] as int - '0' as int)
  }

  lemma {:induction false} ValueOfToString(n: nat)
    ensures Value(ToString(n)) == n
  {
    if n >= 10 {
      ValueOfToString(n / 10);
      assert ToString(n)[..|ToString(n)| - 1] == ToString(n / 10);
    } else {
      assert ToString(n)[..0] == "";
    }
  }

  /** The usual notation: digits only, and no leading zero but that of zero. */
  lemma {:induction false} DigitsOnly(n: nat)
    ensures forall c :: c in ToString(n) ==> '0' <= c <= '9'
    ensures ToString(n) != "" && (n > 0 ==> ToString(n)[0] != '0')
  {
    if n >= 10 {
      DigitsOnly(n / 10);
    }
  }

  /** Different numbers are written differently. */
  lemma ToStringInjective(m: nat, n: nat)
    requires ToString(m) == ToString(n)
    ensures m == n
  {
    ValueOfToString(m);
    ValueOfToString(n);
  }
}
