/** std::to_string for integers. */
module Decimal {

  function ToString(n: int): (s: string)
    ensures s != ""
    decreases n < 0, if n < 0 then -n else n
  {
    if n < 0 then "-" + ToString(-n)
    else if n < 10 then [Figure(n)]
    else ToString(n / 10) + [Figure(n % 10)]
  }

  function Figure(d: nat): char
    requires d < 10
  {
    ('0' as int + d) as char
  }

  predicate IsFigure(c: char) {
    '0' <= c <= '9'
  }

  /** The number that decimal figures spell. */
  function Number(s: string): int {
    if s == "" then 0 else 10 * Number(s[..|s| - 1]) + (s[|s| - 1] as int - '0' as int)
  }

  /** The figures spell the number, without leading zeros; a negative number has a sign in front. */
  lemma {:induction false} ToStringSpells(n: int)
    ensures n >= 0 ==> Number(ToString(n)) == n && forall k :: 0 <= k < |ToString(n)| ==> IsFigure(ToString(n)[k])
    ensures n > 0 ==> ToString(n)[0] != '0'
    ensures n == 0 ==> ToString(n) == "0"
    ensures n < 0 ==> ToString(n) == "-" + ToString(-n)
    decreases n < 0, if n < 0 then -n else n
  {
    if n >= 10 {
      ToStringSpells(n / 10);
      assert ToString(n)[..|ToString(n)| - 1] == ToString(n / 10);
    } else if n >= 0 {
      assert [Figure(n)][..0] == "";
    }
  }
}
