/** Decimal rendering of unsigned integers (Rust's `Display` for integers),
    the string parser behind alloy's `U256::from_str`, and the `{:#x}`
    rendering of an address. */
module Decimal {
  import opened Wrappers
  import opened Ints

  predicate IsDigit(c: char) { '0' <= c <= '9' }

  predicate AllDigits(s: string) { forall i :: 0 <= i < |s| ==> IsDigit(s[i]) }

  function DigitChar(d: nat): (c: char)
    requires d < 10
    ensures IsDigit(c) && c as int - '0' as int == d
  {
    ('0' as int + d) as char
  }

  function DigitValue(c: char): (d: nat)
    requires IsDigit(c)
    ensures d < 10 && DigitChar(d) == c
  {
    c as int - '0' as int
  }

  function Pow10(k: nat): (p: nat)
    ensures p >= 1
  {
    if k == 0 then 1 else 10 * Pow10(k - 1)
  }

  /** `n.to_string()`: the shortest decimal rendering, "0" for zero. */
  function ToDecimal(n: nat): (s: string)
    ensures |s| >= 1 && AllDigits(s)
    decreases n
  {
    if n < 10 then [DigitChar(n)] else ToDecimal(n / 10) + [DigitChar(n % 10)]
  }

  /** The number a string of decimal digits denotes. */
  function DigitsValue(s: string): (v: nat)
    requires AllDigits(s)
    ensures v < Pow10(|s|)
  {
    if s == [] then 0 else DigitsValue(s[..|s| - 1]) * 10 + DigitValue(s[|s| - 1])
  }

  lemma {:induction false} ToDecimalValue(n: nat)
    ensures DigitsValue(ToDecimal(n)) == n
    decreases n
  {
    if n >= 10 {
      var s := ToDecimal(n);
      assert s[..|s| - 1] == ToDecimal(n / 10);
      ToDecimalValue(n / 10);
    }
  }

  /** A rendering never starts with a zero, except the rendering of zero itself. */
  lemma {:induction false} ToDecimalNoLeadingZero(n: nat)
    ensures n > 0 ==> ToDecimal(n)[0] != '0'
    ensures n == 0 ==> ToDecimal(n) == "0"
    decreases n
  {
    if n >= 10 {
      ToDecimalNoLeadingZero(n / 10);
    }
  }

  /** A value below 10^k renders in at most k digits. */
  lemma {:induction false} ToDecimalLength(n: nat, k: nat)
    requires 1 <= k && n < Pow10(k)
    ensures |ToDecimal(n)| <= k
    decreases k
  {
    if n >= 10 {
      assert k >= 2;
      assert n / 10 < Pow10(k - 1);
      ToDecimalLength(n / 10, k - 1);
    }
  }

  /** Two renderings are equal only for equal values. */
  lemma ToDecimalInjective(a: nat, b: nat)
    requires ToDecimal(a) == ToDecimal(b)
    ensures a == b
  {
    ToDecimalValue(a);
    ToDecimalValue(b);
  }

  lemma {:induction false} Pow10Add(a: nat, b: nat)
    ensures Pow10(a + b) == Pow10(a) * Pow10(b)
    decreases a
  {
    if a > 0 {
      Pow10Add(a - 1, b);
    }
  }

  /** 2^256 is below 10^78. */
  lemma U256LimitBelowPow10_78()
    ensures U256_LIMIT < Pow10(78)
  {
    assert Pow10(2) == 100;
    Pow10Add(2, 2);
    assert Pow10(4) == 10000;
    Pow10Add(4, 4);
    assert Pow10(8) == 100000000;
    Pow10Add(8, 8);
    assert Pow10(16) == 10000000000000000;
    Pow10Add(16, 16);
    assert Pow10(32) == 100000000000000000000000000000000;
    Pow10Add(32, 32);
    assert Pow10(64) == 10000000000000000000000000000000000000000000000000000000000000000;
    Pow10Add(64, 8);
    assert Pow10(72) == 1000000000000000000000000000000000000000000000000000000000000000000000000;
    Pow10Add(72, 4);
    assert Pow10(76) == 10000000000000000000000000000000000000000000000000000000000000000000000000000;
    Pow10Add(76, 2);
    assert Pow10(78) == 1000000000000000000000000000000000000000000000000000000000000000000000000000000;
  }

  /** Every `U256` renders in at most 78 decimal digits. */
  lemma U256HasAtMost78Digits(v: u256)
    ensures |ToDecimal(v)| <= 78
  {
    U256LimitBelowPow10_78();
    ToDecimalLength(v, 78);
  }

  // ---------------------------------------------------------------------
  // `U256::from_str`: an optional radix prefix ("0x"/"0X" hexadecimal,
  // "0o"/"0O" octal, "0b"/"0B" binary, otherwise decimal), then digits of
  // that radix, case-insensitive, with '_' separators ignored. Any other
  // character, a digit not below the radix, or a value of 2^256 or more is
  // an error. An empty digit string denotes zero.
  // ---------------------------------------------------------------------

  datatype ParseError = InvalidDigit | Overflow

  /** The value of an alphanumeric character as a digit in radix up to 36. */
  function AlnumValue(c: char): Option<nat>
  {
    if '0' <= c <= '9' then Some(c as int - '0' as int)
    else if 'a' <= c <= 'z' then Some(c as int - 'a' as int + 10)
    else if 'A' <= c <= 'Z' then Some(c as int - 'A' as int + 10)
    else None
  }

  /** The digits of `s` in the given radix, skipping underscores. */
  function RadixDigits(s: string, radix: nat): Option<seq<nat>>
  {
    if s == [] then Some([])
    else
      match RadixDigits(s[..|s| - 1], radix)
      case None => None
      case Some(ds) =>
        var c := s[|s| - 1];
        if c == '_' then Some(ds)
        else match AlnumValue(c)
          case None => None
          case Some(d) => if d < radix then Some(ds + [d]) else None
  }

  function DigitsToNat(ds: seq<nat>, radix: nat): nat
  {
    if ds == [] then 0 else DigitsToNat(ds[..|ds| - 1], radix) * radix + ds[|ds| - 1]
  }

  function SplitRadix(s: string): (string, nat)
  {
    if |s| >= 2 && s[..2] in {"0x", "0X"} then (s[2..], 16)
    else if |s| >= 2 && s[..2] in {"0o", "0O"} then (s[2..], 8)
    else if |s| >= 2 && s[..2] in {"0b", "0B"} then (s[2..], 2)
    else (s, 10)
  }

  function ParseU256(s: string): (r: Result<u256, ParseError>)
  {
    var (body, radix) := SplitRadix(s);
    match RadixDigits(body, radix)
    case None => Err(InvalidDigit)
    case Some(ds) =>
      var v := DigitsToNat(ds, radix);
      if v < U256_LIMIT then Ok(v) else Err(Overflow)
  }

  /** On a string of decimal digits with no radix prefix, the parser reads
      exactly the decimal value. */
  lemma {:induction false} DecimalDigitsParse(s: string)
    requires AllDigits(s)
    ensures RadixDigits(s, 10).Some?
    ensures DigitsToNat(RadixDigits(s, 10).value, 10) == DigitsValue(s)
  {
    if s != [] {
      DecimalDigitsParse(s[..|s| - 1]);
    }
  }

  /** `U256::from_str(&v.to_string()) == Ok(v)`. */
  lemma ParseToDecimal(v: u256)
    ensures ParseU256(ToDecimal(v)) == Ok(v)
  {
    var s := ToDecimal(v);
    ToDecimalNoLeadingZero(v);
    if v == 0 {
      assert SplitRadix(s) == (s, 10);
    } else {
      assert s[0] != '0';
      assert SplitRadix(s) == (s, 10);
    }
    DecimalDigitsParse(s);
    ToDecimalValue(v);
  }

  /** Any character that is neither alphanumeric nor '_' makes parsing fail. */
  lemma {:induction false} BadCharRejected(s: string, i: nat, radix: nat)
    requires i < |s| && s[i] != '_' && AlnumValue(s[i]).None?
    ensures RadixDigits(s, radix).None?
    decreases |s|
  {
    if i < |s| - 1 {
      BadCharRejected(s[..|s| - 1], i, radix);
    }
  }

  // ---------------------------------------------------------------------
  // Lowercase hexadecimal, as `format!("{:#x}", address)` renders alloy's
  // 20-byte `Address`: "0x" and then all 40 digits, leading zeros included.
  // ---------------------------------------------------------------------

  predicate IsHexDigit(c: char) { '0' <= c <= '9' || 'a' <= c <= 'f' }

  predicate AllHex(s: string) { forall i :: 0 <= i < |s| ==> IsHexDigit(s[i]) }

  function HexDigitChar(d: nat): (c: char)
    requires d < 16
    ensures IsHexDigit(c) && HexDigitValue(c) == d
  {
    if d < 10 then DigitChar(d) else ('a' as int + (d - 10)) as char
  }

  function HexDigitValue(c: char): (d: nat)
    requires IsHexDigit(c)
    ensures d < 16
  {
    if c <= '9' then c as int - '0' as int else c as int - 'a' as int + 10
  }

  function Pow16(k: nat): (p: nat)
    ensures p >= 1
  {
    if k == 0 then 1 else 16 * Pow16(k - 1)
  }

  /** The low `n` hexadecimal digits of `v`, most significant first. */
  function HexDigits(v: nat, n: nat): (s: string)
    ensures |s| == n && AllHex(s)
    decreases n
  {
    if n == 0 then "" else HexDigits(v / 16, n - 1) + [HexDigitChar(v % 16)]
  }

  /** The number a string of hexadecimal digits denotes. */
  function HexValue(s: string): (v: nat)
    requires AllHex(s)
    ensures v < Pow16(|s|)
  {
    if s == [] then 0 else HexValue(s[..|s| - 1]) * 16 + HexDigitValue(s[|s| - 1])
  }

  /** A value below 16^n reads back from its `n` digits. */
  lemma {:induction false} HexDigitsValue(v: nat, n: nat)
    requires v < Pow16(n)
    ensures HexValue(HexDigits(v, n)) == v
    decreases n
  {
    if n > 0 {
      var s := HexDigits(v, n);
      assert s[..|s| - 1] == HexDigits(v / 16, n - 1);
      assert v / 16 < Pow16(n - 1);
      HexDigitsValue(v / 16, n - 1);
    }
  }

  /** `format!("{:#x}", a)` for a 160-bit address. */
  function AddressHex(a: Address): (s: string)
    ensures |s| == 42 && s[..2] == "0x" && AllHex(s[2..])
  {
    "0x" + HexDigits(a, 40)
  }

  /** The digits after "0x" read back to the address, so distinct addresses
      render distinctly. */
  lemma AddressHexReadsBack(a: Address, b: Address)
    requires a < Pow16(40) && b < Pow16(40)
    ensures HexValue(AddressHex(a)[2..]) == a
    ensures AddressHex(a) == AddressHex(b) ==> a == b
  {
    assert AddressHex(a)[2..] == HexDigits(a, 40);
    assert AddressHex(b)[2..] == HexDigits(b, 40);
    HexDigitsValue(a, 40);
    HexDigitsValue(b, 40);
  }
}
