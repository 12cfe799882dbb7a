/**
 Numbers as text: what the printer writes, and what strtoull with base 0 reads back
 (section 7.22.1.4 of ISO/IEC 9899:2018).
 */
module Numerals {

  datatype Option<+T> = None | Some(value: T)

  const ULL_MAX: nat := 0xFFFF_FFFF_FFFF_FFFF

  // ----- digits

  predicate IsSpace(c: char) { c == ' ' || '\t' <= c <= '\r' }

  function DigitOf(c: char): nat {
    if '0' <= c <= '9' then c as int - '0' as int
    else if 'a' <= c <= 'z' then c as int - 'a' as int + 10
    else if 'A' <= c <= 'Z' then c as int - 'A' as int + 10
    else 36
  }

  datatype Base = Octal | Decimal | Hexadecimal {
    function Size(): (n: nat)
      ensures n >= 8
    {
      match this case Octal => 8 case Decimal => 10 case Hexadecimal => 16
    }
    /** x times the base, plus d. */
    function Shift(x: nat, d: nat): (r: nat)
      ensures r >= x + d
    {
      match this case Octal => 8 * x + d case Decimal => 10 * x + d case Hexadecimal => 16 * x + d
    }
  }

  predicate AllDigits(s: string, base: Base) { forall i :: 0 <= i < |s| ==> DigitOf(s[i]) < base.Size() }

  function Value(s: string, base: Base): nat
    requires AllDigits(s, base)
  {
    if s == "" then 0 else base.Shift(Value(s[..|s| - 1], base), DigitOf(s[|s| - 1]))
  }

  // ----- strtoull

  function SkipSpace(s: string): string { if s != "" && IsSpace(s[0]) then SkipSpace(s[1..]) else s }

  predicate HexPrefix(s: string) {
    |s| >= 3 && s[0] == '0' && (s[1] == 'x' || s[1] == 'X') && DigitOf(s[2]) < 16
  }

  /** The base a subject sequence is read in, and its digits. */
  function Subject(s: string): (Base, string) {
    if HexPrefix(s) then (Hexadecimal, s[2..])
    else if s != "" && s[0] == '0' then (Octal, s)
    else (Decimal, s)
  }

  /** A minus sign negates in the unsigned type. */
  function Negate(value: nat): nat
    requires value <= ULL_MAX
  {
    if value == 0 then 0 else ULL_MAX + 1 - value
  }

  /** parse_u64: the whole text must be one number without overflow. */
  function ParseU64(s: string): Option<nat> {
    var t := SkipSpace(s);
    var signed := t != "" && (t[0] == '-' || t[0] == '+');
    var (base, digits) := Subject(if signed then t[1..] else t);
    if digits == "" || !AllDigits(digits, base) || Value(digits, base) > ULL_MAX then None
    else Some(if signed && t[0] == '-' then Negate(Value(digits, base)) else Value(digits, base))
  }

  function ParseUpTo(s: string, max: nat): Option<nat> {
    match ParseU64(s) case None => None case Some(v) => if v <= max then Some(v) else None
  }

  // ----- printing

  function DecimalDigit(d: nat): (c: char)
    requires d < 10
    ensures DigitOf(c) == d && '0' <= c <= '9'
  {
    ('0' as int + d) as char
  }

  function HexDigit(d: nat): (c: char)
    requires d < 16
    ensures DigitOf(c) == d && ('0' <= c <= '9' || 'a' <= c <= 'f')
  {
    if d < 10 then ('0' as int + d) as char else ('a' as int + d - 10) as char
  }

  /** %u, %zu and their wider forms. */
  function Dec(n: nat): (s: string)
    ensures s != ""
  {
    if n < 10 then [DecimalDigit(n)] else Dec(n / 10) + [DecimalDigit(n % 10)]
  }

  /** %x of a word. */
  function Hex(n: nat): (s: string)
    ensures s != ""
  {
    if n < 16 then [HexDigit(n)] else Hex(n / 16) + [HexDigit(n % 16)]
  }

  lemma {:induction false} DecValue(n: nat)
    ensures AllDigits(Dec(n), Decimal) && Value(Dec(n), Decimal) == n
    ensures forall i :: 0 <= i < |Dec(n)| ==> '0' <= Dec(n)[i] <= '9'
    ensures n > 0 ==> Dec(n)[0] != '0'
  {
    if n >= 10 {
      DecValue(n / 10);
      assert Dec(n)[..|Dec(n)| - 1] == Dec(n / 10);
      assert Dec(n)[0] == Dec(n / 10)[0];
    } else {
      assert [DecimalDigit(n)][..0] == "";
    }
  }

  lemma {:induction false} HexValue(n: nat)
    ensures AllDigits(Hex(n), Hexadecimal) && Value(Hex(n), Hexadecimal) == n
    ensures forall i :: 0 <= i < |Hex(n)| ==> '0' <= Hex(n)[i] <= '9' || 'a' <= Hex(n)[i] <= 'f'
  {
    if n >= 16 {
      HexValue(n / 16);
      assert Hex(n)[..|Hex(n)| - 1] == Hex(n / 16);
    } else {
      assert [HexDigit(n)][..0] == "";
    }
  }

  /** Printed decimal numbers read back. */
  lemma DecReads(n: nat)
    requires n <= ULL_MAX
    ensures ParseU64(Dec(n)) == Some(n)
  {
    DecValue(n);
    var s := Dec(n);
    assert '0' <= s[0] <= '9';
    assert SkipSpace(s) == s;
    if n == 0 {
      assert s == ['0'];
      assert s[..0] == "";
      assert Value(s, Octal) == 0;
    } else {
      assert Subject(s) == (Decimal, s);
    }
  }

  /** Printed hexadecimal words read back. */
  lemma HexReads(n: nat)
    requires n <= ULL_MAX
    ensures ParseU64("0x" + Hex(n)) == Some(n)
  {
    HexValue(n);
    var s := "0x" + Hex(n);
    assert s[2] == Hex(n)[0];
    assert s[2..] == Hex(n);
    assert DigitOf(s[2]) < 16;
    assert SkipSpace(s) == s;
    assert Subject(s) == (Hexadecimal, Hex(n));
  }

  /** No word takes more than twenty digits. */
  lemma {:induction false} DecLength(n: nat, k: nat)
    requires k >= 1 && n < Tens(k)
    ensures |Dec(n)| <= k
  {
    if n >= 10 { DecLength(n / 10, k - 1); }
  }

  function Tens(k: nat): nat { if k == 0 then 1 else 10 * Tens(k - 1) }

  lemma {:induction false} HexLength(n: nat, k: nat)
    requires k >= 1 && n < Sixteens(k)
    ensures |Hex(n)| <= k
  {
    if n >= 16 { HexLength(n / 16, k - 1); }
  }

  function Sixteens(k: nat): nat { if k == 0 then 1 else 16 * Sixteens(k - 1) }

  lemma WordLengths(n: nat)
    requires n <= ULL_MAX
    ensures |Dec(n)| <= 20 && |Hex(n)| <= 16
  {
    assert Tens(5) == 100000;
    assert Tens(10) == 10000000000;
    assert Tens(15) == 1000000000000000;
    assert Tens(20) == 100000000000000000000;
    assert Sixteens(4) == 0x1_0000;
    assert Sixteens(8) == 0x1_0000_0000;
    assert Sixteens(12) == 0x1_0000_0000_0000;
    assert Sixteens(16) == 0x1_0000_0000_0000_0000;
    DecLength(n, 20);
    HexLength(n, 16);
  }
}
