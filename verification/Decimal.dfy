/** Decimal text of integers, as the source's formatting and 64-bit parsing produce and read it. */
module Decimal {
  import opened Options

  const MAX_INT64 := 0x7fff_ffff_ffff_ffff

  const DIGITS := "0123456789"

  function FormatNat(n: nat): (s: string)
    ensures s != []
  {
    if n < 10 then [DIGITS[n]] else FormatNat(n / 10) + [DIGITS[n % 10]]
  }

  predicate IsDigit(c: char) { '0' <= c <= '9' }

  predicate AllDigits(s: string) {
    forall i | 0 <= i < |s| :: IsDigit(s[i])
  }

  function DigitValue(c: char): nat
    requires IsDigit(c)
  {
    c as nat - '0' as nat
  }

  function Value(s: string): nat
    requires AllDigits(s)
  {
    if s == [] then 0 else 10 * Value(s[..|s| - 1]) + DigitValue(s[|s| - 1])
  }

  /** An optional sign, then digits, within 64-bit range; anything else is an error. */
  function ParseInt(s: string): Option<int> {
    var signed := s != [] && (s[0] == '+' || s[0] == '-');
    var digits := if signed then s[1..] else s;
    if digits == [] || !AllDigits(digits) then None
    else if signed && s[0] == '-' then
      if Value(digits) > MAX_INT64 + 1 then None else Some(0 - Value(digits))
    else if Value(digits) > MAX_INT64 then None
    else Some(Value(digits))
  }

  lemma {:induction false} DigitFacts(d: nat)
    requires d < 10
    ensures IsDigit(DIGITS[d]) && DigitValue(DIGITS[d]) == d
  {
  }

  lemma {:induction false} FormatIsDigits(n: nat)
    ensures AllDigits(FormatNat(n)) && Value(FormatNat(n)) == n
  {
    if n < 10 {
      DigitFacts(n);
      assert [DIGITS[n]][..0] == [];
    } else {
      FormatIsDigits(n / 10);
      DigitFacts(n % 10);
      assert FormatNat(n)[..|FormatNat(n)| - 1] == FormatNat(n / 10);
    }
  }

  function FormatInt(n: int): string {
    if n < 0 then "-" + FormatNat(-n) else FormatNat(n)
  }

  /** Every 64-bit value is read back from its text. */
  lemma {:induction false} ParseOfFormat(n: int)
    requires -MAX_INT64 - 1 <= n <= MAX_INT64
    ensures ParseInt(FormatInt(n)) == Some(n)
  {
    var digits := FormatNat(if n < 0 then -n else n);
    FormatIsDigits(if n < 0 then -n else n);
    if n < 0 {
      assert FormatInt(n)[0] == '-' && FormatInt(n)[1..] == digits;
    } else {
      assert IsDigit(digits[0]);
    }
  }
}
