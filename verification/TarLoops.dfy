/**
 Two archives the tar reader never finishes: a header that leads to itself, and
 two headers that lead to each other.
 */
module TarLoops {

  import opened Options
  import opened Strings
  import opened TarArchive
  import opened TarEndless
  import opened TarRoundTrip

  // An extended header with no content but a size field of five characters.
  function SizeBlock(size: string): (b: Bytes)
    requires |size| == 5 && IsAscii(size)
    ensures |b| == BLOCK
  {
    Zeros(124) + (AsciiBytes(size) + Zeros(7)) + Zeros(20) + [120] + Zeros(355)
  }

  const MINUS_512 := "-1000"
  const MINUS_1024 := "-2000"
  const ZERO := "00000"

  lemma {:induction false} SizesAreParsed()
    ensures ParseInt(MINUS_512, 8) == Some(-512) && Trim(MINUS_512) == MINUS_512
    ensures ParseInt(MINUS_1024, 8) == Some(-1024) && Trim(MINUS_1024) == MINUS_1024
  {
    hide ParseInt, Trim;
    ThousandsAreParsed('1');
    ThousandsAreParsed('2');
    assert "-" + ['1'] + "000" == MINUS_512 && "-" + ['2'] + "000" == MINUS_1024;
  }

  lemma {:induction false} ThousandsAreParsed(digit: char)
    requires '1' <= digit <= '2'
    ensures var s := "-" + [digit] + "000";
            ParseInt(s, 8) == Some(-512 * DigitValue(digit, 8)) && Trim(s) == s
  {
    hide ParseInt, NumeralValue, Trim;
    var digits := [digit] + "000";
    assert "-" + [digit] + "000" == "-" + digits;
    ThousandsValue([digit]);
    ParseIntOfNegative(digits, 8);
  }

  lemma {:induction false} ThousandsValue(digit: string)
    requires |digit| == 1 && AllDigitsOf(digit, 8)
    ensures AllDigitsOf(digit + "000", 8) && NumeralValue(digit + "000", 8) == 512 * DigitValue(digit[0], 8)
  {
    var s := digit + "000";
    assert s[..3] == digit + "00" && (digit + "00")[..2] == digit + "0" && (digit + "0")[..1] == digit;
    assert digit[..0] == [] && NumeralValue(digit, 8) == DigitValue(digit[0], 8);
    assert NumeralValue(digit + "0", 8) == 8 * DigitValue(digit[0], 8);
    assert NumeralValue(digit + "00", 8) == 64 * DigitValue(digit[0], 8);
  }

  lemma {:induction false} ZeroIsParsed()
    ensures ParseInt(ZERO, 8) == Some(0) && Trim(ZERO) == ZERO
  {
    hide LeadingDigits, TrimStart, TrimEnd;
    ParseIntOfDigits(ZERO, 8);
    ThousandsValue("0");
    assert NumeralValue("0000", 8) == 0 by { assert "0" + "000" == "0000"; }
    assert ZERO[..4] == "0000";
  }

  lemma {:induction false} SizeBlockIsRead(text: string, size: int, decode: Decoder)
    requires |text| == 5 && IsAscii(text) && DecodesAscii(decode)
    requires (forall i | 0 <= i < 5 :: text[i] as int != 0) && ParseInt(text, 8) == Some(size) && Trim(text) == text
    ensures !AllZero(SizeBlock(text))
    ensures var h := ReadHeader(SizeBlock(text), decode); h.Some? && h.value.size == size && h.value.flag == 120
  {
    hide ParseInt, IndexOf, DecodesAscii;
    var field, b := AsciiBytes(text) + Zeros(7), SizeBlock(text);
    Slice(Zeros(124), field, Zeros(20) + [120] + Zeros(355));
    assert b == Zeros(124) + field + (Zeros(20) + [120] + Zeros(355));
    assert b[124] == field[0] && b[156] == 120;
    AsciiIsDecoded(AsciiBytes(text), decode);
    AsciiRoundTrip(text);
    TextIsRead(AsciiBytes(text), Zeros(7), decode);
  }

  // A round at such a header inside an archive, when it finds no attributes.
  lemma {:induction false} RoundAt(archive: Bytes, offset: nat, text: string, size: int, env: Env)
    requires |text| == 5 && IsAscii(text) && DecodesAscii(env.decode)
    requires (forall i | 0 <= i < 5 :: text[i] as int != 0) && ParseInt(text, 8) == Some(size) && Trim(text) == text
    requires offset + BLOCK <= |archive| && archive[offset..offset + BLOCK] == SizeBlock(text) && size <= 0
    requires Subarray(archive, offset + BLOCK, offset + BLOCK + size) == []
    ensures Step(archive, Spot(offset, None), env) == Go(Spot(offset + BLOCK + Blocks(size), None), [])
  {
    hide ReadHeader, AllZero, SizeBlock, Blocks, ParseInt, DecodesAscii;
    SizeBlockIsRead(text, size, env.decode);
    assert Subarray(archive, offset, offset + BLOCK) == archive[offset..offset + BLOCK];
    assert PaxAttributes([], 0, map[], env.decode) == map[];
  }

  /** One header with size -512: the reader comes back to it at once. */
  lemma {:induction false} OneHeaderLoops(env: Env)
    requires DecodesAscii(env.decode)
    ensures Endless(SizeBlock(MINUS_512), START, env)
  {
    hide Step, ParseInt, SizeBlock, DecodesAscii, Endless;
    var archive := SizeBlock(MINUS_512);
    SizesAreParsed();
    assert archive[0..BLOCK] == archive;
    RoundAt(archive, 0, MINUS_512, -512, env);
    assert After(archive, START, env, 0) == Some(START) && After(archive, START, env, 1) == Some(START);
    assert Meets(archive, START, env, 0, 1);
    EndlessExactly(archive, START, env);
  }

  /** Two headers, of size 0 and -1024: the second leads back to the first. */
  lemma {:induction false} TwoHeadersLoop(env: Env)
    requires DecodesAscii(env.decode)
    ensures Endless(SizeBlock(ZERO) + SizeBlock(MINUS_1024), START, env)
  {
    hide Step, ParseInt, SizeBlock, DecodesAscii, Endless;
    var first, second := SizeBlock(ZERO), SizeBlock(MINUS_1024);
    var archive := first + second;
    SizesAreParsed();
    ZeroIsParsed();
    assert archive[0..BLOCK] == first && archive[BLOCK..BLOCK + BLOCK] == second;
    RoundAt(archive, 0, ZERO, 0, env);
    RoundAt(archive, BLOCK, MINUS_1024, -1024, env);
    assert After(archive, START, env, 0) == Some(START);
    assert After(archive, START, env, 1) == Some(Spot(BLOCK, None));
    assert After(archive, START, env, 2) == Some(START);
    assert Meets(archive, START, env, 0, 2);
    EndlessExactly(archive, START, env);
  }
}
