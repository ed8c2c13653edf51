/** Decimal and hexadecimal digit strings, as written by a C++ output stream
    (`<< n` for an unsigned in decimal; `<< std::hex << std::setw(w) <<
    std::setfill('0') << n` for a zero-padded lower-case hexadecimal number),
    with the readers that invert them. */
module Text {
  import opened Wrappers

  predicate IsDigit(c: char) {
    '0' <= c <= '9'
  }

  predicate AllDigits(s: string) {
    forall k :: 0 <= k < |s| ==> IsDigit(s[k])
  }

  function DigitChar(d: nat): (c: char)
    requires d < 10
    ensures IsDigit(c) && DigitValue(c) == d
  {
    ('0' as int + d) as char
  }

  function DigitValue(c: char): nat
    requires IsDigit(c)
  {
    c as int - '0' as int
  }

  /** The decimal digits of `n`, most significant first, without leading zeros. */
  function Decimal(n: nat): (s: string)
    ensures |s| >= 1 && AllDigits(s)
    ensures s[0] == '0' ==> n == 0
    decreases n
  {
    if n < 10 then [DigitChar(n)] else Decimal(n / 10) + [DigitChar(n % 10)]
  }

  /** The number a string of decimal digits denotes. */
  function DigitsValue(s: string): nat
    requires AllDigits(s)
    decreases |s|
  {
    if s == [] then 0 else DigitsValue(s[..|s| - 1]) * 10 + DigitValue(s[|s| - 1])
  }

  lemma {:induction false} DecimalValue(n: nat)
    ensures DigitsValue(Decimal(n)) == n
    decreases n
  {
    if n >= 10 {
      var s := Decimal(n);
      assert s[..|s| - 1] == Decimal(n / 10);
      DecimalValue(n / 10);
    }
  }

  /** The longest prefix of `s` made of decimal digits. */
  function DigitPrefix(s: string): (p: string)
    ensures |p| <= |s| && p == s[..|p|] && AllDigits(p)
    ensures |p| < |s| ==> !IsDigit(s[|p|])
    decreases |s|
  {
    if s != [] && IsDigit(s[0]) then [s[0]] + DigitPrefix(s[1..]) else []
  }

  lemma {:induction false} DigitPrefixOfDigits(ds: string, rest: string)
    requires AllDigits(ds)
    requires rest == [] || !IsDigit(rest[0])
    ensures DigitPrefix(ds + rest) == ds
    decreases |ds|
  {
    if ds != [] {
      assert (ds + rest)[1..] == ds[1..] + rest;
      DigitPrefixOfDigits(ds[1..], rest);
    }
  }

  /** Reads a decimal number at the start of `s`: its value and what follows it. */
  function ReadNumber(s: string): (r: Option<(nat, string)>)
    ensures r.Some? ==> |r.value.1| < |s| && r.value.1 == s[|s| - |r.value.1|..]
  {
    var p := DigitPrefix(s);
    if p == [] then None else Some((DigitsValue(p), s[|p|..]))
  }

  /** Writing a number and reading it back gives the number and the text after it. */
  lemma ReadDecimal(n: nat, rest: string)
    requires rest == [] || !IsDigit(rest[0])
    ensures ReadNumber(Decimal(n) + rest) == Some((n, rest))
  {
    DigitPrefixOfDigits(Decimal(n), rest);
    DecimalValue(n);
    assert (Decimal(n) + rest)[|Decimal(n)|..] == rest;
  }

  // Hexadecimal

  predicate IsLowerHexDigit(c: char) {
    '0' <= c <= '9' || 'a' <= c <= 'f'
  }

  predicate AllLowerHex(s: string) {
    forall k :: 0 <= k < |s| ==> IsLowerHexDigit(s[k])
  }

  function HexChar(d: nat): (c: char)
    requires d < 16
    ensures IsLowerHexDigit(c) && HexDigitValue(c) == d
  {
    if d < 10 then ('0' as int + d) as char else ('a' as int + (d - 10)) as char
  }

  function HexDigitValue(c: char): nat
    requires IsLowerHexDigit(c)
  {
    if c <= '9' then c as int - '0' as int else c as int - 'a' as int + 10
  }

  function Pow16(k: nat): (p: nat)
    ensures p >= 1
  {
    if k == 0 then 1 else 16 * Pow16(k - 1)
  }

  lemma Pow16Eight()
    ensures Pow16(8) == 0x1_0000_0000
  {
  }

  /** The low `width` hexadecimal digits of `v`, zero-padded, most significant first. */
  function HexPadded(v: nat, width: nat): (s: string)
    ensures |s| == width && AllLowerHex(s)
    decreases width
  {
    if width == 0 then [] else HexPadded(v / 16, width - 1) + [HexChar(v % 16)]
  }

  /** The number a string of lower-case hexadecimal digits denotes. */
  function HexValue(s: string): nat
    requires AllLowerHex(s)
    decreases |s|
  {
    if s == [] then 0 else HexValue(s[..|s| - 1]) * 16 + HexDigitValue(s[|s| - 1])
  }

  /** Euclidean division is unique: a quotient and remainder in range are the ones. */
  lemma DivModUnique(x: int, m: int, a: int, r: int)
    requires m > 0 && x == m * a + r && 0 <= r < m
    ensures x / m == a && x % m == r
  {
    var e := a - x / m;
    assert m * e == x % m - r;
    // m * e lies strictly between -m and m, so e cannot be non-zero.
    if e > 0 {
      assert false;
    } else if e < 0 {
      assert false;
    }
  }

  lemma ModOfMultiple(v: nat, m: nat)
    requires m >= 1
    ensures v % (16 * m) == 16 * ((v / 16) % m) + v % 16
  {
    var q, r := v / 16, v % 16;
    var a, b := q / m, q % m;
    assert v == (16 * m) * a + (16 * b + r);
    DivModUnique(v, 16 * m, a, 16 * b + r);
  }

  lemma {:induction false} HexPaddedValue(v: nat, width: nat)
    ensures HexValue(HexPadded(v, width)) == v % Pow16(width)
    decreases width
  {
    if width > 0 {
      var s := HexPadded(v, width);
      assert s[..|s| - 1] == HexPadded(v / 16, width - 1);
      HexPaddedValue(v / 16, width - 1);
      var m := Pow16(width - 1);
      ModOfMultiple(v, m);
    }
  }

  lemma HexPadded8Value(v: nat)
    requires v < 0x1_0000_0000
    ensures HexValue(HexPadded(v, 8)) == v
  {
    HexPaddedValue(v, 8);
    Pow16Eight();
  }

  /** A 32-bit value written as exactly eight zero-padded lower-case hexadecimal digits. */
  function Hex8(w: bv32): (s: string)
    ensures |s| == 8 && AllLowerHex(s)
    ensures HexValue(s) == w as int
  {
    HexPadded8Value(w as int);
    HexPadded(w as int, 8)
  }
}
