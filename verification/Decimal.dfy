/** Decimal rendering and parsing (`strconv.Itoa`, `strconv.FormatUint`, `strconv.ParseUint` in base 10). */
module Decimal {
  import opened Wrappers

  const MAX_UINT64: nat := 0xFFFF_FFFF_FFFF_FFFF

  predicate IsDigit(c: char) {
    '0' <= c <= '9'
  }

  function DigitChar(d: nat): (c: char)
    requires d < 10
    ensures IsDigit(c)
  {
    '0' + d as char
  }

  function FormatUint(n: nat): (s: string)
    ensures s != "" && forall i :: 0 <= i < |s| ==> IsDigit(s[i])
  {
    if n < 10 then [DigitChar(n)] else FormatUint(n / 10) + [DigitChar(n % 10)]
  }

  function Itoa(n: int): string {
    if n < 0 then "-" + FormatUint(-n) else FormatUint(n)
  }

  /** The value of a digit string, None if a character is not a digit. */
  function DigitsValue(s: string): Option<nat> {
    if s == "" then Some(0)
    else if !IsDigit(s[|s| - 1]) then None
    else match DigitsValue(s[..|s| - 1])
      case None => None
      case Some(v) => Some(10 * v + (s[|s| - 1] - '0') as nat)
  }

  /** ParseUint(s, 10, 64): digits only, non-empty, within 64 bits. */
  function ParseUint(s: string): Option<nat> {
    if s == "" then None
    else match DigitsValue(s)
      case None => None
      case Some(v) => if v <= MAX_UINT64 then Some(v) else None
  }

  lemma {:induction false} DigitsValueOfFormat(n: nat)
    ensures DigitsValue(FormatUint(n)) == Some(n)
  {
    var s := FormatUint(n);
    if n < 10 {
      assert s[..|s| - 1] == "";
    } else {
      DigitsValueOfFormat(n / 10);
      assert s[..|s| - 1] == FormatUint(n / 10);
    }
  }

  lemma ParseOfFormat(n: nat)
    ensures ParseUint(FormatUint(n)) == if n <= MAX_UINT64 then Some(n) else None
  {
    DigitsValueOfFormat(n);
  }

  lemma ItoaShowsItsSign(n: int)
    ensures n >= 0 ==> Itoa(n)[0] != '-' && DigitsValue(Itoa(n)) == Some(n)
    ensures n < 0 ==> Itoa(n)[0] == '-' && DigitsValue(Itoa(n)[1..]) == Some(-n)
  {
    if n >= 0 {
      DigitsValueOfFormat(n);
    } else {
      DigitsValueOfFormat(-n);
      assert Itoa(n)[1..] == FormatUint(-n);
    }
  }

  lemma ItoaInjective(a: int, b: int)
    requires Itoa(a) == Itoa(b)
    ensures a == b
  {
    ItoaShowsItsSign(a);
    ItoaShowsItsSign(b);
  }

  lemma ItoaHasNoColon(n: int)
    ensures ':' !in Itoa(n)
  {
    var s := FormatUint(if n < 0 then -n else n);
    if n < 0 {
      assert Itoa(n)[0] == '-' && Itoa(n)[1..] == s;
    }
  }
}
