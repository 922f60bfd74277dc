/** Numerals and the numbers that they stand for. */
module Numerals {
  import opened CString

  predicate IsDigit(c: char) { '0' <= c <= '9' }

  predicate AllDigits(s: string) { forall i :: 0 <= i < |s| ==> IsDigit(s[i]) }

  function DecimalValue(s: string): (v: nat)
    requires AllDigits(s)
  {
    if s == [] then 0 else 10 * DecimalValue(s[..|s| - 1]) + (s[|s| - 1] - '0') as int
  }

  /** Decimal without leading zeros. */
  function Decimal(n: nat): (s: string)
    ensures s != ""
  {
    (if n < 10 then "" else Decimal(n / 10)) + ['0' + (n % 10) as char]
  }

  /** Lower-case hexadecimal without leading zeros, the `%x` format. */
  function Hex(n: nat): (s: string) {
    if n < 16 then [HexDigit(n)] else Hex(n / 16) + [HexDigit(n % 16)]
  }

  function HexDigit(d: nat): (c: char)
    requires d < 16
  {
    if d < 10 then '0' + d as char else 'a' + (d - 10) as char
  }

  /** The number that a hexadecimal numeral stands for. */
  function HexValue(s: string): (n: nat) {
    if s == "" then 0 else 16 * HexValue(s[..|s| - 1]) + HexDigitValue(s[|s| - 1])
  }

  function HexDigitValue(c: char): (n: nat) {
    if '0' <= c <= '9' then (c - '0') as nat else if 'a' <= c <= 'f' then 10 + (c - 'a') as nat else 0
  }

  /** The residue can be read back from its numeral. */
  lemma {:induction false} HexRoundTrip(n: nat)
    ensures Hex(n) != "" && IsText(Hex(n))
    ensures HexValue(Hex(n)) == n
  {
    assert HexDigitValue(HexDigit(n % 16)) == n % 16;
    if n < 16 {
      assert Hex(n)[..0] == "";
    } else {
      HexRoundTrip(n / 16);
      assert Hex(n)[..|Hex(n)| - 1] == Hex(n / 16);
    }
  }
}
