/** Bytes, 32-bit words, hexadecimal digits, and decimal numerals without leading zeros. */
module Numerals {
  type Byte = n: nat | n < 0x100
  type U32 = n: nat | n < 0x1_0000_0000

  /** A 32-bit number in two's complement. */
  function Signed(v: U32): int {
    if v < 0x8000_0000 then v else v - 0x1_0000_0000
  }

  predicate IsDigit(c: char) {
    '0' <= c <= '9'
  }

  predicate AllDigits(s: string) {
    forall i | 0 <= i < |s| :: IsDigit(s[i])
  }

  function DigitOf(c: char): nat
    requires IsDigit(c)
  {
    c as int - '0' as int
  }

  function CharOf(d: nat): char
    requires d < 10
  {
    (d + '0' as int) as char
  }

  /** The shortest numeral of `n`, most significant digit first. */
  function Numeral(n: nat): (s: string)
    ensures s != "" && AllDigits(s)
    ensures s[0] == '0' ==> s == "0"
  {
    if n < 10 then [CharOf(n)] else Numeral(n / 10) + [CharOf(n % 10)]
  }

  ghost function ValueOf(s: string): nat
    requires AllDigits(s)
  {
    if s == "" then 0 else 10 * ValueOf(s[..|s| - 1]) + DigitOf(s[|s| - 1])
  }

  lemma {:induction false} NumeralValue(n: nat)
    ensures ValueOf(Numeral(n)) == n
  {
    if n >= 10 {
      NumeralValue(n / 10);
      var s := Numeral(n);
      assert s[..|s| - 1] == Numeral(n / 10);
    }
  }

  predicate IsHex(c: char) {
    IsDigit(c) || 'a' <= c <= 'f' || 'A' <= c <= 'F'
  }

  function HexValue(c: char): nat
    requires IsHex(c)
  {
    if IsDigit(c) then DigitOf(c)
    else if 'a' <= c then 10 + (c as int - 'a' as int)
    else 10 + (c as int - 'A' as int)
  }

  /** A digit's value is its place among the digits, in either case. */
  lemma HexValueIsPlace(c: char)
    requires IsHex(c)
    ensures HexValue(c) < 16
    ensures "0123456789abcdef"[HexValue(c)] == c || "0123456789ABCDEF"[HexValue(c)] == c
  {
  }

  function HexByte(hi: char, lo: char): Byte
    requires IsHex(hi) && IsHex(lo)
  {
    HexValue(hi) * 16 + HexValue(lo)
  }

  function HexChar(d: nat): char
    requires d < 16
  {
    if d < 10 then CharOf(d) else (d - 10 + 'A' as int) as char
  }
}
