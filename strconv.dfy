/**
 * Decimal integer text in the manner of Go's strconv: FormatInt, ParseInt with a
 * base of 10 and a bit size, and ParseUint. Text is a sequence of bytes, one char each.
 */
module Strconv {
  import opened Wrappers

  const MinInt32 := -0x8000_0000
  const MaxInt32 := 0x7fff_ffff
  const MinInt64 := -0x8000_0000_0000_0000
  const MaxInt64 := 0x7fff_ffff_ffff_ffff
  const MaxUint64 := 0xffff_ffff_ffff_ffff

  /** Go's int32(x) conversion: x reduced modulo 2^32 into the int32 range. */
  function WrapInt32(x: int): (r: int)
    ensures MinInt32 <= r <= MaxInt32
    ensures MinInt32 <= x <= MaxInt32 ==> r == x
    ensures (x - r) % 0x1_0000_0000 == 0
  {
    (x - MinInt32) % 0x1_0000_0000 + MinInt32
  }

  /** Go's uint(x) of an int32 on a 64-bit platform: negative values wrap to the top. */
  function UintOfInt32(x: int): (r: nat)
    requires MinInt32 <= x <= MaxInt32
    ensures r <= MaxUint64
    ensures x >= 0 ==> r == x
    ensures x < 0 ==> r > MaxInt32
  {
    if x >= 0 then x else x + MaxUint64 + 1
  }

  /** Go's uint64, and the increment that wraps at its top. */
  type Uint64 = x: int | 0 <= x <= MaxUint64

  function IncUint64(n: Uint64): (r: Uint64)
    ensures n < MaxUint64 ==> r == n + 1
    ensures n == MaxUint64 ==> r == 0
  {
    (n + 1) % (MaxUint64 + 1)
  }

  predicate IsDigit(c: char) { '0' <= c <= '9' }

  predicate AllDigits(s: string) { forall i :: 0 <= i < |s| ==> IsDigit(s[i]) }

  function DigitValue(c: char): nat
    requires IsDigit(c)
  {
    c as int - '0' as int
  }

  function DigitChar(d: nat): (c: char)
    requires d < 10
    ensures IsDigit(c) && DigitValue(c) == d
  {
    ('0' as int + d) as char
  }

  /** The value of a non-empty run of decimal digits, most significant first. */
  function DigitsValue(s: string): nat
    requires AllDigits(s)
  {
    if s == [] then 0 else DigitsValue(s[..|s| - 1]) * 10 + DigitValue(s[|s| - 1])
  }

  /** The decimal digits of n without leading zeros. */
  function FormatNat(n: nat): (s: string)
    ensures 1 <= |s| && AllDigits(s)
  {
    if n < 10 then [DigitChar(n)] else FormatNat(n / 10) + [DigitChar(n % 10)]
  }

  /** strconv.FormatInt(n, 10), which is also what fmt's %v prints for an integer. */
  function FormatInt(n: int): (s: string)
    ensures 1 <= |s| && (s[0] == '-' || IsDigit(s[0]))
    ensures forall i :: 0 <= i < |s| ==> s[i] == '-' || IsDigit(s[i])
  {
    if n < 0 then "-" + FormatNat(-n) else FormatNat(n)
  }

  /**
   * strconv.ParseInt(s, 10, bits) for a signed range [lo, hi]: an optional '+' or
   * '-', then one or more decimal digits and nothing else, with a value inside the range.
   * Syntax and range errors are both None.
   */
  function ParseInt(s: string, lo: int, hi: int): (r: Option<int>)
    ensures r.Some? ==> lo <= r.value <= hi
  {
    var signed := |s| > 0 && (s[0] == '+' || s[0] == '-');
    var digits := if signed then s[1..] else s;
    if digits == [] || !AllDigits(digits) then None
    else
      var v: int := if signed && s[0] == '-' then 0 - DigitsValue(digits) as int else DigitsValue(digits);
      if lo <= v <= hi then Some(v) else None
  }

  function ParseInt32(s: string): Option<int> { ParseInt(s, MinInt32, MaxInt32) }

  function ParseInt64(s: string): Option<int> { ParseInt(s, MinInt64, MaxInt64) }

  /** strconv.ParseUint(s, 10, 64): digits only, no sign, at most MaxUint64. */
  function ParseUint64(s: string): (r: Option<nat>)
    ensures r.Some? ==> r.value <= MaxUint64
  {
    if s == [] || !AllDigits(s) || DigitsValue(s) > MaxUint64 then None
    else Some(DigitsValue(s))
  }

  lemma {:induction false} FormatNatValue(n: nat)
    ensures DigitsValue(FormatNat(n)) == n
  {
    if n >= 10 {
      var s := FormatNat(n);
      assert s[..|s| - 1] == FormatNat(n / 10);
      FormatNatValue(n / 10);
    }
  }

  /** Formatting then parsing gives back every value of the range. */
  lemma ParseFormatInt(n: int, lo: int, hi: int)
    requires lo <= n <= hi
    ensures ParseInt(FormatInt(n), lo, hi) == Some(n)
  {
    if n < 0 {
      assert FormatInt(n)[1..] == FormatNat(-n);
      FormatNatValue(-n);
    } else {
      FormatNatValue(n);
    }
  }

  lemma ParseFormatUint(n: nat)
    requires n <= MaxUint64
    ensures ParseUint64(FormatNat(n)) == Some(n)
  {
    FormatNatValue(n);
  }
}
