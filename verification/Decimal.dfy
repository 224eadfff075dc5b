/** Printing (`%d`) and scanning of decimal integers. */
module Decimal {
  import opened Wrappers
  import opened Arithmetic

  const INT64_MAX := 0x7FFF_FFFF_FFFF_FFFF
  const INT64_MIN := -0x8000_0000_0000_0000

  predicate IsDigit(c: char) { '0' <= c <= '9' }

  predicate AllDigits(s: string) { forall i :: 0 <= i < |s| ==> IsDigit(s[i]) }

  function Digit(d: nat): char
    requires d < 10
  {
    ('0' as int + d) as char
  }

  /** Decimal digits of `n`, most significant first. */
  function Digits(n: nat): string {
    if n < 10 then [Digit(n)] else Digits(n / 10) + [Digit(n % 10)]
  }

  function FormatInt(n: int): string {
    if n < 0 then "-" + Digits(-n) else Digits(n)
  }

  /** The number a string of digits denotes. */
  function Value(s: string): nat
    requires AllDigits(s)
  {
    if s == [] then 0
    else Value(s[..|s| - 1]) * 10 + (s[|s| - 1] as int - '0' as int)
  }

  lemma {:induction false} DigitsInverse(n: nat)
    ensures Digits(n) != [] && AllDigits(Digits(n))
    ensures Value(Digits(n)) == n
  {
    if n < 10 {
      assert Digits(n)[..0] == [];
    } else {
      DigitsInverse(n / 10);
      var d := Digits(n);
      assert d[..|d| - 1] == Digits(n / 10);
    }
  }

  // ---------------------------------------------------------------------
  // The digits are the decimal ones
  // ---------------------------------------------------------------------

  const DIGITS := "0123456789"

  function TenTo(k: nat): (r: nat)
    ensures r > 0
  {
    if k == 0 then 1 else 10 * TenTo(k - 1)
  }

  /** The `i`-th digit from the right is that of the `i`-th power of ten. */
  lemma {:induction false} DigitsArePlaces(n: nat, i: nat)
    requires i < |Digits(n)|
    ensures Digits(n)[|Digits(n)| - 1 - i] == DIGITS[n / TenTo(i) % 10]
  {
    if i > 0 {
      DigitsArePlaces(n / 10, i - 1);
      DivideByTenFirst(n, TenTo(i - 1));
    }
  }

  /** There are as many digits as it takes, and no leading zero. */
  lemma {:induction false} DigitsCount(n: nat)
    ensures Digits(n) != [] && n < TenTo(|Digits(n)|)
    ensures n > 0 ==> TenTo(|Digits(n)| - 1) <= n
    ensures n == 0 ==> |Digits(n)| == 1
  {
    if n >= 10 { DigitsCount(n / 10); }
  }

  /** What printed integers look like: a digit run, after a minus sign if negative. */
  lemma FormatIntShape(n: int)
    ensures FormatInt(n) != []
    ensures forall i :: 0 <= i < |FormatInt(n)| ==> IsDigit(FormatInt(n)[i]) || FormatInt(n)[i] == '-'
    ensures n < 0 <==> FormatInt(n)[0] == '-'
  {
    DigitsInverse(if n < 0 then -n else n);
  }

  lemma FormatIntInjective(m: int, n: int)
    requires FormatInt(m) == FormatInt(n)
    ensures m == n
  {
    FormatIntShape(m);
    FormatIntShape(n);
    DigitsInverse(if m < 0 then -m else m);
    DigitsInverse(if n < 0 then -n else n);
    if m < 0 {
      assert FormatInt(m)[1..] == Digits(-m);
      assert FormatInt(n)[1..] == Digits(-n);
    }
  }

  // ---------------------------------------------------------------------
  // Scanning, as `fmt.Sscanf(s, "%d", &n)` does on text without whitespace
  // ---------------------------------------------------------------------

  /** Length of the longest prefix made of digits. */
  function DigitPrefix(s: string): (n: nat)
    ensures n <= |s| && AllDigits(s[..n])
    ensures n < |s| ==> !IsDigit(s[n])
  {
    if s == [] || !IsDigit(s[0]) then 0
    else
      var n := 1 + DigitPrefix(s[1..]);
      assert forall i :: 1 <= i < n ==> s[..n][i] == s[1..][..n - 1][i - 1];
      n
  }

  /**
   An optional sign, then the longest run of digits; the rest is left unread.
   Without a digit, or when the value does not fit 64 bits, scanning fails.
   */
  function ScanInt(s: string): Option<int> {
    var signed := s != [] && (s[0] == '-' || s[0] == '+');
    var rest := if signed then s[1..] else s;
    var n := DigitPrefix(rest);
    if n == 0 then None
    else
      var magnitude: int := Value(rest[..n]);
      var v := if signed && s[0] == '-' then -magnitude else magnitude;
      if INT64_MIN <= v <= INT64_MAX then Some(v) else None
  }

  /** Scanning undoes printing, for every 64-bit integer. */
  lemma ScanFormat(n: int)
    requires INT64_MIN <= n <= INT64_MAX
    ensures ScanInt(FormatInt(n)) == Some(n)
  {
    var d := Digits(if n < 0 then -n else n);
    DigitsInverse(if n < 0 then -n else n);
    FormatIntShape(n);
    if n < 0 { assert FormatInt(n)[1..] == d; }
    assert IsDigit(d[0]);
    assert DigitPrefix(d) == |d|;
    assert d[..|d|] == d;
  }
}
