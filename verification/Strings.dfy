/**
 Strings and bytes as the source's library calls treat them: white space and
 trimming, decimal numerals, and the ASCII part of UTF-8.
 */
module Strings {

  import opened Options

  // White space and line terminators as `trim` removes them.
  predicate IsSpace(c: char) {
    var u := c as int;
    || 9 <= u <= 13 || u == 0x20 || u == 0xA0 || u == 0x1680
    || 0x2000 <= u <= 0x200A || u == 0x2028 || u == 0x2029 || u == 0x202F
    || u == 0x205F || u == 0x3000 || u == 0xFEFF
  }

  function TrimStart(s: string): string {
    if s != [] && IsSpace(s[0]) then TrimStart(s[1..]) else s
  }

  function TrimEnd(s: string): string {
    if s != [] && IsSpace(s[|s| - 1]) then TrimEnd(s[..|s| - 1]) else s
  }

  function Trim(s: string): string {
    TrimEnd(TrimStart(s))
  }

  predicate IsTrimmed(s: string) {
    s == [] || (!IsSpace(s[0]) && !IsSpace(s[|s| - 1]))
  }

  lemma {:induction false} TrimStartDrops(s: string)
    ensures exists k :: 0 <= k <= |s| && TrimStart(s) == s[k..]
    ensures TrimStart(s) != [] ==> !IsSpace(TrimStart(s)[0])
  {
    if s != [] && IsSpace(s[0]) {
      TrimStartDrops(s[1..]);
      var k :| 0 <= k <= |s[1..]| && TrimStart(s[1..]) == s[1..][k..];
      assert s[1..][k..] == s[k + 1..];
    } else {
      assert s[0..] == s;
    }
  }

  lemma {:induction false} TrimEndDrops(s: string)
    ensures exists k :: 0 <= k <= |s| && TrimEnd(s) == s[..k]
    ensures TrimEnd(s) != [] ==> !IsSpace(TrimEnd(s)[|TrimEnd(s)| - 1])
  {
    if s != [] && IsSpace(s[|s| - 1]) {
      TrimEndDrops(s[..|s| - 1]);
      var k :| 0 <= k <= |s| - 1 && TrimEnd(s[..|s| - 1]) == s[..|s| - 1][..k];
      assert s[..|s| - 1][..k] == s[..k];
    } else {
      assert s[..|s|] == s;
    }
  }

  lemma {:induction false} TrimmedResult(s: string)
    ensures IsTrimmed(Trim(s))
  {
    TrimStartDrops(s);
    TrimEndDrops(TrimStart(s));
  }

  lemma TrimKeepsTrimmed(s: string)
    requires IsTrimmed(s)
    ensures Trim(s) == s && TrimStart(s) == s
  {
  }

  predicate AllSpace(s: string) {
    forall i :: 0 <= i < |s| ==> IsSpace(s[i])
  }

  lemma {:induction false} TrimStartSkips(blank: string, s: string)
    requires AllSpace(blank)
    ensures TrimStart(blank + s) == TrimStart(s)
  {
    if blank == [] {
      assert blank + s == s;
    } else {
      assert (blank + s)[1..] == blank[1..] + s;
      TrimStartSkips(blank[1..], s);
    }
  }

  // Lower case of an ASCII letter.
  function LowerChar(c: char): char {
    if 'A' <= c <= 'Z' then (c as int + 32) as char else c
  }

  // ----- Numerals -----

  type Radix = r: int | r == 8 || r == 10 witness 10

  predicate IsDigitOf(c: char, radix: Radix) {
    0 <= c as int - '0' as int < radix
  }

  predicate AllDigitsOf(s: string, radix: Radix) {
    forall i :: 0 <= i < |s| ==> IsDigitOf(s[i], radix)
  }

  // The digits a text starts with.
  function LeadingDigits(s: string, radix: Radix): (r: string)
    ensures r <= s && AllDigitsOf(r, radix)
  {
    if s != [] && IsDigitOf(s[0], radix) then [s[0]] + LeadingDigits(s[1..], radix) else []
  }

  lemma {:induction false} LeadingDigitsOf(digits: string, rest: string, radix: Radix)
    requires AllDigitsOf(digits, radix) && (rest == [] || !IsDigitOf(rest[0], radix))
    ensures LeadingDigits(digits + rest, radix) == digits
  {
    if digits == [] {
      assert digits + rest == rest;
    } else {
      assert (digits + rest)[1..] == digits[1..] + rest;
      LeadingDigitsOf(digits[1..], rest, radix);
    }
  }

  function DigitValue(c: char, radix: Radix): nat
    requires IsDigitOf(c, radix)
  {
    c as int - '0' as int
  }

  function NumeralValue(digits: string, radix: Radix): nat
    requires AllDigitsOf(digits, radix)
  {
    if digits == [] then 0
    else radix * NumeralValue(digits[..|digits| - 1], radix) + DigitValue(digits[|digits| - 1], radix)
  }

  function DigitChar(d: nat, radix: Radix): (c: char)
    requires d < radix
    ensures IsDigitOf(c, radix) && DigitValue(c, radix) == d
  {
    ('0' as int + d) as char
  }

  lemma {:induction false} DivMod(n: nat, radix: Radix)
    ensures 0 <= n / radix && 0 <= n % radix < radix && radix * (n / radix) + n % radix == n
    ensures n >= radix ==> n / radix < n
  {
    if radix == 8 {
    } else {
    }
  }

  // The numeral with no leading zero.
  function Numeral(n: nat, radix: Radix): (s: string)
    ensures s != [] && AllDigitsOf(s, radix)
  {
    DivMod(n, radix);
    if n < radix then [DigitChar(n, radix)]
    else Numeral(n / radix, radix) + [DigitChar(n % radix, radix)]
  }

  lemma {:induction false} NumeralRoundTrip(n: nat, radix: Radix)
    ensures NumeralValue(Numeral(n, radix), radix) == n
  {
    var s := Numeral(n, radix);
    DivMod(n, radix);
    if n < radix {
      assert s[..0] == [] && NumeralValue(s[..0], radix) == 0;
    } else {
      NumeralRoundTrip(n / radix, radix);
      assert s[..|s| - 1] == Numeral(n / radix, radix);
    }
  }

  // The numeral of the given width, with leading zeros; its lowest digits when it is too short.
  function Padded(n: nat, width: nat, radix: Radix): (s: string)
    ensures |s| == width && AllDigitsOf(s, radix)
  {
    DivMod(n, radix);
    if width == 0 then [] else Padded(n / radix, width - 1, radix) + [DigitChar(n % radix, radix)]
  }

  function Power(radix: Radix, width: nat): nat {
    if width == 0 then 1 else radix * Power(radix, width - 1)
  }

  lemma {:induction false} PaddedRoundTrip(n: nat, width: nat, radix: Radix)
    requires n < Power(radix, width)
    ensures NumeralValue(Padded(n, width, radix), radix) == n
  {
    DivMod(n, radix);
    if width > 0 {
      var s := Padded(n, width, radix);
      QuotientBound(n, Power(radix, width - 1), radix);
      PaddedRoundTrip(n / radix, width - 1, radix);
      assert s[..|s| - 1] == Padded(n / radix, width - 1, radix);
    }
  }

  lemma {:induction false} QuotientBound(n: nat, bound: nat, radix: Radix)
    requires n < radix * bound
    ensures n / radix < bound
  {
    if radix == 8 {
    } else {
    }
  }

  // `parseInt`: white space, a sign, and as many digits as follow.
  function ParseInt(s: string, radix: Radix): Option<int> {
    var t := TrimStart(s);
    var signed := t != [] && (t[0] == '-' || t[0] == '+');
    var digits := LeadingDigits(if signed then t[1..] else t, radix);
    if digits == [] then None
    else
      var value: int := NumeralValue(digits, radix);
      Some(if signed && t[0] == '-' then -value else value)
  }

  lemma DigitsAreVisible(radix: Radix)
    ensures forall c | IsDigitOf(c, radix) :: !IsSpace(c) && c != '-' && c != '+'
  {
  }

  lemma {:induction false} ParseIntOfDigits(digits: string, radix: Radix)
    requires digits != [] && AllDigitsOf(digits, radix)
    ensures ParseInt(digits, radix) == Some(NumeralValue(digits, radix))
    ensures Trim(digits) == digits
  {
    hide NumeralValue, LeadingDigits;
    assert IsDigitOf(digits[0], radix) && IsDigitOf(digits[|digits| - 1], radix);
    DigitsAreVisible(radix);
    TrimKeepsTrimmed(digits);
    LeadingDigitsOf(digits, "", radix);
    assert digits + "" == digits;
  }

  lemma {:induction false} ParseIntOfNegative(digits: string, radix: Radix)
    requires digits != [] && AllDigitsOf(digits, radix)
    ensures ParseInt("-" + digits, radix) == Some(-(NumeralValue(digits, radix) as int))
    ensures Trim("-" + digits) == "-" + digits
  {
    hide NumeralValue, LeadingDigits, TrimStart, Trim;
    var s := "-" + digits;
    assert IsDigitOf(digits[|digits| - 1], radix) && s[|s| - 1] == digits[|digits| - 1] && s[0] == '-';
    DigitsAreVisible(radix);
    TrimKeepsTrimmed(s);
    assert s[1..] == digits && digits + "" == digits;
    LeadingDigitsOf(digits, "", radix);
  }

  // ----- Bytes -----

  type Byte = b: int | 0 <= b < 256

  type Bytes = seq<Byte>

  predicate AllAscii(bytes: Bytes) {
    forall i :: 0 <= i < |bytes| ==> bytes[i] < 128
  }

  // The characters of ASCII bytes, and back.
  function AsciiText(bytes: Bytes): (s: string)
    ensures |s| == |bytes|
  {
    seq(|bytes|, i requires 0 <= i < |bytes| => bytes[i] as char)
  }

  predicate IsAscii(s: string) {
    forall i :: 0 <= i < |s| ==> s[i] as int < 128
  }

  function AsciiBytes(s: string): (bytes: Bytes)
    requires IsAscii(s)
    ensures |bytes| == |s| && AllAscii(bytes)
  {
    seq(|s|, i requires 0 <= i < |s| => s[i] as int)
  }

  lemma AsciiRoundTrip(s: string)
    requires IsAscii(s)
    ensures AsciiText(AsciiBytes(s)) == s
  {
  }

  // UTF-8 decoding is a parameter. An ASCII byte always stands for itself, and
  // separates what comes before it from what comes after.
  type Decoder = Bytes -> string

  ghost predicate DecodesAscii(decode: Decoder) {
    && decode([]) == ""
    && forall a: Bytes, c: Byte, b: Bytes | c < 128 ::
         decode(a + [c] + b) == decode(a) + [c as char] + decode(b)
  }

  lemma {:induction false} AsciiIsDecoded(bytes: Bytes, decode: Decoder)
    requires DecodesAscii(decode) && AllAscii(bytes)
    ensures decode(bytes) == AsciiText(bytes)
  {
    if bytes != [] {
      AsciiIsDecoded(bytes[1..], decode);
      assert decode([] + [bytes[0]] + bytes[1..]) == decode([]) + [bytes[0] as char] + decode(bytes[1..]);
      assert [] + [bytes[0]] + bytes[1..] == bytes;
    }
  }
}
