/** Decimal integers as Rust reads and writes them: `str::parse::<u32>()`,
    `str::parse::<i32>()` and the `Display` form used by `format!`. */
module Numbers {
  import opened Wrappers

  const U32_LIMIT: nat := 0x1_0000_0000
  const I32_MIN: int := -0x8000_0000
  const I32_MAX: int := 0x7FFF_FFFF

  /** Values of Rust's `u32` and `i32`. */
  type U32 = n: nat | n < U32_LIMIT
  type I32 = i: int | I32_MIN <= i <= I32_MAX

  predicate IsAsciiDigit(c: char) {
    '0' <= c <= '9'
  }

  predicate AllDigits(s: string) {
    forall i :: 0 <= i < |s| ==> IsAsciiDigit(s[i])
  }

  function DigitChar(d: nat): char
    requires d < 10
  {
    ('0' as int + d) as char
  }

  /** The value of a string of decimal digits, most significant first. */
  function DigitsValue(s: string): nat
    requires AllDigits(s)
  {
    if s == [] then 0
    else DigitsValue(s[..|s| - 1]) * 10 + (s[|s| - 1] as int - '0' as int)
  }

  /** The digits of `n` without leading zeros. */
  function NatToString(n: nat): (r: string)
    ensures |r| >= 1 && AllDigits(r)
  {
    if n < 10 then [DigitChar(n)] else NatToString(n / 10) + [DigitChar(n % 10)]
  }

  /** `Display` for a signed integer: a '-' sign for negative values. */
  function IntToString(i: int): string {
    if i < 0 then "-" + NatToString(-i) else NatToString(i)
  }

  /** The digits after an optional leading '+' (Rust accepts one), or None
      when they are empty or hold a non-digit. */
  function UnsignedDigits(s: string): Option<nat> {
    var d := if |s| >= 1 && s[0] == '+' then s[1..] else s;
    if d == [] || !AllDigits(d) then None else Some(DigitsValue(d))
  }

  /** `str::parse::<u32>()`. */
  function ParseU32(s: string): (r: Option<nat>)
    ensures r.Some? ==> r.value < U32_LIMIT
  {
    match UnsignedDigits(s)
    case Some(v) => if v < U32_LIMIT then Some(v) else None
    case None => None
  }

  /** `str::parse::<i32>()`: an optional sign, then at least one digit, and a
      value within the 32-bit signed range. */
  function ParseI32(s: string): (r: Option<int>)
    ensures r.Some? ==> I32_MIN <= r.value <= I32_MAX
  {
    if |s| >= 1 && s[0] == '-' then
      var d := s[1..];
      if d == [] || !AllDigits(d) then None
      else
        var v: int := 0 - DigitsValue(d);
        if v >= I32_MIN then Some(v) else None
    else
      match UnsignedDigits(s)
      case Some(v) => if v <= I32_MAX then Some(v) else None
      case None => None
  }

  lemma {:induction false} DigitsOfNat(n: nat)
    ensures DigitsValue(NatToString(n)) == n
  {
    var s := NatToString(n);
    if n >= 10 {
      DigitsOfNat(n / 10);
      assert s[..|s| - 1] == NatToString(n / 10);
    }
  }

  /** Parsing what `Display` wrote gives back the number. */
  lemma ParseU32OfNatToString(n: nat)
    requires n < U32_LIMIT
    ensures ParseU32(NatToString(n)) == Some(n)
  {
    DigitsOfNat(n);
  }

  lemma ParseI32OfIntToString(i: int)
    requires I32_MIN <= i <= I32_MAX
    ensures ParseI32(IntToString(i)) == Some(i)
  {
    if i < 0 {
      var d := NatToString(-i);
      var s := "-" + d;
      assert s[0] == '-' && s[1..] == d;
      DigitsOfNat(-i);
    } else {
      var d := NatToString(i);
      assert d[0] != '-' && d[0] != '+';
      DigitsOfNat(i);
    }
  }

  /** What `Display` writes for an integer: digits, after a '-' for a
      negative value, ending in a digit. */
  lemma IntToStringShape(i: int)
    ensures var s := IntToString(i);
            |s| >= 1 && IsAsciiDigit(s[|s| - 1])
            && (s[0] == '-' || IsAsciiDigit(s[0]))
            && forall k :: 1 <= k < |s| ==> IsAsciiDigit(s[k])
  {
  }

  /** Distinct numbers are written differently. */
  lemma NatToStringInjective(m: nat, n: nat)
    requires NatToString(m) == NatToString(n)
    ensures m == n
  {
    DigitsOfNat(m);
    DigitsOfNat(n);
  }
}
