/** Decimal rendering of integers (`String(n)`, `BigInt.toString`) and its inverse. */
module Decimal {
  import opened Wrappers

  const DIGITS := "0123456789"

  predicate IsDigit(c: char) {
    '0' <= c <= '9'
  }

  predicate AllDigits(s: string) {
    forall i :: 0 <= i < |s| ==> IsDigit(s[i])
  }

  function NatToString(n: nat): (s: string)
    ensures s != "" && AllDigits(s)
  {
    if n < 10 then [DIGITS[n]] else NatToString(n / 10) + [DIGITS[n % 10]]
  }

  function StringToNat(s: string): nat
    requires AllDigits(s)
  {
    if s == "" then 0
    else StringToNat(s[..|s| - 1]) * 10 + (s[|s| - 1] as int - '0' as int)
  }

  lemma {:induction false} NatRoundTrip(n: nat)
    ensures StringToNat(NatToString(n)) == n
  {
    if n >= 10 {
      NatRoundTrip(n / 10);
      assert NatToString(n)[..|NatToString(n)| - 1] == NatToString(n / 10);
    }
  }

  function IntToString(n: int): (s: string)
    ensures s != "" && forall c :: c in s ==> IsDigit(c) || c == '-'
  {
    if n < 0 then "-" + NatToString(-n) else NatToString(n)
  }

  /** `BigInt(text)`: an optional minus sign and digits; anything else throws. */
  function StringToInt(s: string): Option<int> {
    if s != "" && s[0] == '-' then
      if s[1..] != "" && AllDigits(s[1..]) then Some(-(StringToNat(s[1..]) as int)) else None
    else if s != "" && AllDigits(s) then Some(StringToNat(s))
    else None
  }

  lemma NatTextIsInt(s: string)
    requires s != "" && AllDigits(s)
    ensures StringToInt(s) == Some(StringToNat(s))
    ensures StringToInt("-" + s) == Some(-(StringToNat(s) as int))
  {
    assert IsDigit(s[0]);
    assert ("-" + s)[1..] == s;
  }

  lemma IntRoundTrip(n: int)
    ensures StringToInt(IntToString(n)) == Some(n)
  {
    var m := if n < 0 then -n else n;
    NatRoundTrip(m);
    NatTextIsInt(NatToString(m));
  }

  lemma NatInjective(a: nat, b: nat)
    requires NatToString(a) == NatToString(b)
    ensures a == b
  {
    NatRoundTrip(a);
    NatRoundTrip(b);
  }

  lemma IntInjective(a: int, b: int)
    requires IntToString(a) == IntToString(b)
    ensures a == b
  {
    IntRoundTrip(a);
    IntRoundTrip(b);
  }
}
