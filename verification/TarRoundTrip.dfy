/**
 Archives written as the ustar and pax interchange formats say are read back:
 every entry, in order, under its path and with its content.
 */
module TarRoundTrip {

  import opened Objects
  import opened Options
  import opened Strings
  import opened TarArchive

  // ----- Fields -----

  function Zeros(n: nat): (b: Bytes)
    ensures |b| == n && AllZero(b)
  {
    seq(n, _ => 0)
  }

  predicate NoZero(b: Bytes) {
    forall i :: 0 <= i < |b| ==> b[i] != 0
  }

  // A text field: the bytes, then zeros up to the width.
  function TextField(b: Bytes, width: nat): (f: Bytes)
    requires |b| <= width
    ensures |f| == width
  {
    b + Zeros(width - |b|)
  }

  lemma {:induction false} FirstZero(b: Bytes, rest: Bytes, from: nat)
    requires NoZero(b) && from <= |b| && (rest == [] || rest[0] == 0)
    ensures IndexOf(b + rest, 0, from) == if rest == [] then -1 else |b|
    decreases |b| - from
  {
    if from < |b| {
      FirstZero(b, rest, from + 1);
    }
  }

  lemma {:induction false} TextIsRead(b: Bytes, rest: Bytes, decode: Decoder)
    requires NoZero(b) && (rest == [] || rest[0] == 0)
    ensures ReadString(b + rest, decode) == decode(b)
  {
    FirstZero(b, rest, 0);
    if rest == [] {
      assert b + rest == b;
    } else {
      assert (b + rest)[..|b|] == b;
    }
  }

  lemma {:induction false} TextFieldIsRead(b: Bytes, width: nat, decode: Decoder)
    requires NoZero(b) && |b| <= width
    ensures ReadString(TextField(b, width), decode) == decode(b)
  {
    TextIsRead(b, Zeros(width - |b|), decode);
  }

  // Eleven octal digits, then a zero or a space.
  function SizeField(size: nat, terminator: Byte): (f: Bytes)
    ensures |f| == 12
  {
    DigitsAreAscii(Padded(size, 11, 8));
    AsciiBytes(Padded(size, 11, 8)) + [terminator]
  }

  lemma {:induction false} DigitsAreAscii(digits: string)
    ensures forall radix: Radix | AllDigitsOf(digits, radix) :: IsAscii(digits)
  {
    forall radix: Radix | AllDigitsOf(digits, radix)
      ensures IsAscii(digits)
    {
      forall i | 0 <= i < |digits| ensures digits[i] as int < 128 {
        assert IsDigitOf(digits[i], radix);
      }
    }
  }

  lemma {:induction false} DigitBytes(digits: string, radix: Radix, decode: Decoder)
    requires AllDigitsOf(digits, radix) && DecodesAscii(decode)
    ensures IsAscii(digits) && NoZero(AsciiBytes(digits)) && decode(AsciiBytes(digits)) == digits
    ensures forall i | 0 <= i < |digits| :: AsciiBytes(digits)[i] != 32
  {
    DigitsAreAscii(digits);
    var bytes := AsciiBytes(digits);
    AsciiIsDecoded(bytes, decode);
    AsciiRoundTrip(digits);
    forall i | 0 <= i < |bytes|
      ensures bytes[i] != 0 && bytes[i] != 32
    {
      assert IsDigitOf(digits[i], radix);
    }
  }

  lemma {:induction false} SizeFieldIsRead(size: nat, terminator: Byte, decode: Decoder)
    requires size < Power(8, 11) && (terminator == 0 || terminator == 32) && DecodesAscii(decode)
    ensures ReadOctal(SizeField(size, terminator), decode) == Some(size)
  {
    hide Padded, Power, NumeralValue, ParseInt, IndexOf, TrimStart, TrimEnd, DecodesAscii;
    var digits := Padded(size, 11, 8);
    DigitBytes(digits, 8, decode);
    ParseIntOfDigits(digits, 8);
    PaddedRoundTrip(size, 11, 8);
    var bytes := AsciiBytes(digits);
    if terminator == 0 {
      TextIsRead(bytes, [0], decode);
    } else {
      TextIsRead(bytes + [32], [], decode);
      assert bytes + [32] + [] == bytes + [32];
      SpaceIsDecoded(bytes, decode);
      TrailingSpace(digits);
      assert IsDigitOf(digits[0], 8);
    }
  }

  lemma {:induction false} SpaceIsDecoded(bytes: Bytes, decode: Decoder)
    requires DecodesAscii(decode)
    ensures decode(bytes + [32]) == decode(bytes) + " "
  {
    assert decode(bytes + [32] + []) == decode(bytes) + [32 as char] + decode([]);
    assert bytes + [32] + [] == bytes + [32];
  }

  lemma {:induction false} TrailingSpace(digits: string)
    requires digits != [] && Trim(digits) == digits && !IsSpace(digits[0])
    ensures Trim(digits + " ") == digits
  {
    var s := digits + " ";
    assert s[..|s| - 1] == digits;
    assert TrimStart(s) == s && TrimStart(digits) == digits;
    assert TrimEnd(s) == TrimEnd(digits);
  }

  // ----- Headers -----

  // The fields the reader looks at, and all the others.
  datatype Fields = Fields(
    name: Bytes, prefix: Bytes, size: nat, terminator: Byte, flag: Byte,
    owner: Bytes, times: Bytes, link: Bytes, reserved: Bytes)

  predicate FieldsFit(f: Fields) {
    && |f.name| <= 100 && NoZero(f.name) && |f.prefix| <= 155 && NoZero(f.prefix)
    && f.size < Power(8, 11) && (f.terminator == 0 || f.terminator == 32)
    && |f.owner| == 24 && |f.times| == 20 && |f.link| == 188 && |f.reserved| == 12
  }

  // The ustar header block: name, mode and owner, size, times and checksum, type,
  // link name up to the device numbers, prefix, and the unused rest.
  function HeaderBlock(f: Fields): (b: Bytes)
    requires FieldsFit(f)
    ensures |b| == BLOCK
  {
    TextField(f.name, 100) + f.owner + SizeField(f.size, f.terminator) + f.times + [f.flag] + f.link
    + TextField(f.prefix, 155) + f.reserved
  }

  lemma {:induction false} HeaderSlices(f: Fields)
    requires FieldsFit(f)
    ensures var b := HeaderBlock(f);
            && Subarray(b, 0, 100) == TextField(f.name, 100)
            && Subarray(b, 124, 136) == SizeField(f.size, f.terminator)
            && b[156] == f.flag
            && Subarray(b, 345, 500) == TextField(f.prefix, 155)
  {
    hide TextField, SizeField, Power, Subarray;
    var n, s, p := TextField(f.name, 100), SizeField(f.size, f.terminator), TextField(f.prefix, 155);
    var b1 := n + f.owner;
    var b2 := b1 + s;
    var b3 := b2 + f.times;
    var b4 := b3 + [f.flag];
    var b5 := b4 + f.link;
    var b6 := b5 + p;
    assert HeaderBlock(f) == b6 + f.reserved;
    Front([], n, f.owner);
    Early(b1, s, 0, 100);
    Front(b1, s, f.times);
    FrontAt(b3, f.flag, f.link);
    Front(b5, p, f.reserved);
    Early(b2, f.times, 0, 100);
    Early(b3, [f.flag], 0, 100);
    Early(b3, [f.flag], 124, 136);
    Early(b4, f.link, 0, 100);
    Early(b4, f.link, 124, 136);
    Early(b5, p, 0, 100);
    Early(b5, p, 124, 136);
    Early(b6, f.reserved, 0, 100);
    Early(b6, f.reserved, 124, 136);
    assert (b4 + f.link)[156] == (b5 + p)[156] == (b6 + f.reserved)[156];
    assert [] + n == n;
  }

  lemma Front(a: Bytes, b: Bytes, c: Bytes)
    ensures Subarray(a + b + c, |a|, |a| + |b|) == b
  {
  }

  lemma FrontAt(a: Bytes, b: Byte, c: Bytes)
    ensures (a + [b] + c)[|a|] == b
  {
  }

  // A slice that ends before the part added last.
  lemma Early(a: Bytes, b: Bytes, start: nat, end: nat)
    requires start <= end <= |a|
    ensures Subarray(a + b, start, end) == Subarray(a, start, end)
  {
  }

  lemma Slice(a: Bytes, b: Bytes, c: Bytes)
    ensures (a + b + c)[|a|..|a| + |b|] == b
    ensures Subarray(a + b + c, |a|, |a| + |b|) == b
  {
  }

  function ReadFlag(flag: Byte): Byte {
    if flag == 0 then 48 else flag
  }

  lemma {:induction false} HeaderIsRead(f: Fields, decode: Decoder)
    requires FieldsFit(f) && DecodesAscii(decode)
    ensures !AllZero(HeaderBlock(f))
    ensures ReadHeader(HeaderBlock(f), decode)
         == Some(Header(f.size, ReadFlag(f.flag), decode(f.name), decode(f.prefix)))
  {
    hide HeaderBlock, TextField, SizeField, ReadString, ReadOctal, Power, DecodesAscii;
    var b := HeaderBlock(f);
    HeaderSlices(f);
    SizeFieldIsRead(f.size, f.terminator, decode);
    TextFieldIsRead(f.name, 100, decode);
    TextFieldIsRead(f.prefix, 155, decode);
    SizeFieldVisible(f.size, f.terminator);
    var s := SizeField(f.size, f.terminator);
    assert Subarray(b, 124, 136)[0] == b[124];
  }

  lemma {:induction false} SizeFieldVisible(size: nat, terminator: Byte)
    ensures SizeField(size, terminator)[0] != 0
  {
    hide Padded;
    var digits := Padded(size, 11, 8);
    DigitsAreAscii(digits);
    assert IsDigitOf(digits[0], 8);
  }

  // ----- Pax records -----

  // The length counts the whole record, its own digits included.
  datatype PaxRecord = PaxRecord(length: nat, key: Bytes, value: Bytes)

  predicate RecordFits(r: PaxRecord, decode: Decoder) {
    && r.length == |Numeral(r.length, 10)| + |r.key| + |r.value| + 3
    && decode(r.key) != "" && '=' !in decode(r.key)
  }

  function RecordText(r: PaxRecord): (b: Bytes)
    ensures |b| == |r.key| + |r.value| + 2
  {
    r.key + [61] + (r.value + [10])
  }

  // The bytes of a record's length.
  function LengthBytes(r: PaxRecord): (b: Bytes)
    ensures |b| == |Numeral(r.length, 10)|
  {
    DigitsAreAscii(Numeral(r.length, 10));
    AsciiBytes(Numeral(r.length, 10))
  }

  function RecordBytes(r: PaxRecord): (b: Bytes)
    ensures |b| == |Numeral(r.length, 10)| + |r.key| + |r.value| + 3
  {
    LengthBytes(r) + [32] + RecordText(r)
  }

  function Records(rs: seq<PaxRecord>): Bytes {
    if rs == [] then [] else RecordBytes(rs[0]) + Records(rs[1..])
  }

  // What the records say; white space at the end of a value does not survive.
  function Attributes(rs: seq<PaxRecord>, acc: map<string, string>, decode: Decoder): map<string, string>
    decreases rs
  {
    if rs == [] then acc
    else Attributes(rs[1..], Put(acc, decode(rs[0].key), TrimEnd(decode(rs[0].value))), decode)
  }

  lemma {:induction false} TrimEndBehind(a: string, s: string)
    requires a != "" && !IsSpace(a[|a| - 1])
    ensures TrimEnd(a + s) == a + TrimEnd(s)
    decreases |s|
  {
    if s == "" {
      assert a + s == a;
    } else if IsSpace(s[|s| - 1]) {
      assert (a + s)[..|a + s| - 1] == a + s[..|s| - 1];
      TrimEndBehind(a, s[..|s| - 1]);
    }
  }

  lemma {:induction false} FirstSeparator(k: string, rest: string)
    requires '=' !in k
    ensures IndexOfChar(k + "=" + rest, '=') == |k|
  {
    var s := k + "=" + rest;
    if k != "" {
      assert s[1..] == k[1..] + "=" + rest;
      assert s[0] == k[0] && k[0] in k;
      FirstSeparator(k[1..], rest);
    }
  }

  lemma {:induction false} RecordIsPut(r: PaxRecord, acc: map<string, string>, decode: Decoder)
    requires RecordFits(r, decode) && DecodesAscii(decode)
    ensures PutRecord(acc, TrimEnd(decode(RecordText(r)))) == Put(acc, decode(r.key), TrimEnd(decode(r.value)))
  {
    hide IndexOfChar, Put, Numeral;
    var k, v := decode(r.key), decode(r.value);
    assert decode(r.key + [61] + (r.value + [10])) == k + [61 as char] + decode(r.value + [10]);
    assert decode(r.value + [10] + []) == v + [10 as char] + decode([]);
    assert r.value + [10] + [] == r.value + [10];
    assert decode(RecordText(r)) == k + "=" + (v + "\n");
    TrimEndBehind(k + "=", v + "\n");
    assert (v + "\n")[..|v|] == v;
    var record := k + "=" + TrimEnd(v);
    assert TrimEnd(k + "=" + (v + "\n")) == record;
    FirstSeparator(k, TrimEnd(v));
    assert record[..|k|] == k && record[|k| + 1..] == TrimEnd(v);
  }

  lemma {:induction false} SpaceAfterDigits(pre: Bytes, digits: Bytes, rest: Bytes, from: nat)
    requires forall i | 0 <= i < |digits| :: digits[i] != 32
    requires |pre| <= from <= |pre| + |digits|
    ensures IndexOf(pre + digits + [32] + rest, 32, from) == |pre| + |digits|
    decreases |pre| + |digits| - from
  {
    if from < |pre| + |digits| {
      assert (pre + digits + [32] + rest)[from] == digits[from - |pre|];
      SpaceAfterDigits(pre, digits, rest, from + 1);
    }
  }

  lemma Regroup(a: Bytes, b: Bytes, c: Bytes, d: Bytes, e: Bytes)
    ensures a + (b + c + d) + e == a + b + c + (d + e)
    ensures a + (b + c + d) + e == a + b + c + d + e
  {
  }

  lemma {:induction false} RecordParts(pre: Bytes, r: PaxRecord, rest: Bytes, decode: Decoder)
    requires DecodesAscii(decode)
    ensures IndexOf(pre + RecordBytes(r) + rest, 32, |pre|) == |pre| + |LengthBytes(r)|
  {
    hide IndexOf, Numeral, DecodesAscii, RecordText;
    DigitBytes(Numeral(r.length, 10), 10, decode);
    Regroup(pre, LengthBytes(r), [32], RecordText(r), rest);
    SpaceAfterDigits(pre, LengthBytes(r), RecordText(r) + rest, |pre|);
  }

  lemma {:induction false} LengthIsParsed(r: PaxRecord, decode: Decoder)
    requires DecodesAscii(decode)
    ensures ParseInt(decode(LengthBytes(r)), 10) == Some(r.length)
  {
    hide NumeralValue, ParseInt, DecodesAscii;
    DigitBytes(Numeral(r.length, 10), 10, decode);
    ParseIntOfDigits(Numeral(r.length, 10), 10);
    NumeralRoundTrip(r.length, 10);
  }

  lemma {:induction false} LengthIsRead(pre: Bytes, r: PaxRecord, rest: Bytes, decode: Decoder)
    requires RecordFits(r, decode) && DecodesAscii(decode)
    ensures RecordLength(pre + RecordBytes(r) + rest, |pre|, decode) == Some(r.length)
  {
    hide IndexOf, ParseInt, DecodesAscii, LengthBytes, RecordText, Numeral;
    RecordParts(pre, r, rest, decode);
    LengthIsParsed(r, decode);
    Regroup(pre, LengthBytes(r), [32], RecordText(r), rest);
    assert pre + RecordBytes(r) + rest == pre + LengthBytes(r) + ([32] + (RecordText(r) + rest));
    LengthIsThere(pre, LengthBytes(r), [32] + (RecordText(r) + rest));
  }

  lemma {:induction false} TextIsSliced(pre: Bytes, r: PaxRecord, rest: Bytes, decode: Decoder)
    requires RecordFits(r, decode) && DecodesAscii(decode)
    ensures var input := pre + RecordBytes(r) + rest;
            Subarray(input, IndexOf(input, 32, |pre|) + 1, |pre| + r.length) == RecordText(r)
  {
    hide IndexOf, DecodesAscii, LengthBytes, RecordText, Numeral, Subarray;
    RecordParts(pre, r, rest, decode);
    Regroup(pre, LengthBytes(r), [32], RecordText(r), rest);
    Slice(pre + LengthBytes(r) + [32], RecordText(r), rest);
  }

  lemma {:induction false} LengthIsThere(a: Bytes, b: Bytes, c: Bytes)
    ensures (a + b + c)[|a|..|a| + |b|] == b
  {
    Slice(a, b, c);
  }

  /** Every list of well-formed records is read as the attributes it states. */
  lemma {:induction false} RecordsAreRead(
    pre: Bytes, rs: seq<PaxRecord>, acc: map<string, string>, decode: Decoder
  )
    requires DecodesAscii(decode) && forall r <- rs :: RecordFits(r, decode)
    ensures PaxAttributes(pre + Records(rs), |pre|, acc, decode) == Attributes(rs, acc, decode)
    decreases rs
  {
    hide IndexOf, RecordLength, Subarray, RecordFits, TrimEnd, PutRecord, Put, DecodesAscii, RecordBytes;
    if rs == [] {
      assert pre + Records(rs) == pre;
    } else {
      var r, rest := rs[0], Records(rs[1..]);
      var input := pre + Records(rs);
      assert input == pre + RecordBytes(r) + rest;
      LengthIsRead(pre, r, rest, decode);
      TextIsSliced(pre, r, rest, decode);
      RecordSize(r, decode);
      RecordIsPut(r, acc, decode);
      RecordsAreRead(pre + RecordBytes(r), rs[1..], Put(acc, decode(r.key), TrimEnd(decode(r.value))), decode);
    }
  }

  lemma RecordSize(r: PaxRecord, decode: Decoder)
    requires RecordFits(r, decode)
    ensures |RecordBytes(r)| == r.length > 0
  {
  }

  lemma {:induction false} NumeralIsShort(n: nat)
    ensures |Numeral(n, 10)| <= n / 2 + 1
  {
    if n >= 10 {
      DivMod(n, 10);
      NumeralIsShort(n / 10);
    }
  }

  lemma {:induction false} NumeralGrows(a: nat, b: nat)
    requires a <= b
    ensures |Numeral(a, 10)| <= |Numeral(b, 10)|
    decreases b
  {
    if a >= 10 {
      DivMod(a, 10);
      DivMod(b, 10);
      NumeralGrows(a / 10, b / 10);
    }
  }

  /** A record's length can always count itself, whatever the rest is. */
  lemma {:induction false} SelfCount(rest: nat) returns (n: nat)
    ensures n == |Numeral(n, 10)| + rest
  {
    hide Numeral;
    var digits := 1;
    while |Numeral(digits + rest, 10)| > digits
      invariant 1 <= digits <= rest + 1
      invariant |Numeral(digits + rest, 10)| >= digits
      decreases rest + 1 - digits
    {
      NumeralIsShort(2 * rest + 1);
      NumeralGrows(digits + rest, digits + 1 + rest);
      digits := digits + 1;
    }
    n := digits + rest;
  }

  // ----- Archives -----

  // How an entry gets its path: from its own header, from a long-name entry
  // before it, or from an extended header before it.
  datatype Naming =
    | Own
    | LongName(header: Fields, name: Bytes, fill: Bytes)
    | Extended(header: Fields, records: seq<PaxRecord>, fill: Bytes)

  datatype Member = Member(naming: Naming, fields: Fields, data: Bytes, fill: Bytes)

  // A block's data is filled up to a whole number of blocks.
  predicate Fills(f: Fields, data: Bytes, fill: Bytes) {
    FieldsFit(f) && f.size == |data| && (|data| + |fill|) % BLOCK == 0 && |fill| < BLOCK
  }

  predicate MemberFits(m: Member, decode: Decoder) {
    && Fills(m.fields, m.data, m.fill) && m.fields.flag != 76 && m.fields.flag != 120
    && match m.naming
       case Own => true
       case LongName(header, name, fill) => header.flag == 76 && NoZero(name) && Fills(header, name + [0], fill)
       case Extended(header, records, fill) =>
         header.flag == 120 && Fills(header, Records(records), fill) && forall r <- records :: RecordFits(r, decode)
  }

  function Chunk(f: Fields, data: Bytes, fill: Bytes): Bytes
    requires FieldsFit(f)
  {
    HeaderBlock(f) + data + fill
  }

  function MemberBytes(m: Member, decode: Decoder): Bytes
    requires MemberFits(m, decode)
  {
    (match m.naming
     case Own => []
     case LongName(header, name, fill) => Chunk(header, name + [0], fill)
     case Extended(header, records, fill) => Chunk(header, Records(records), fill))
    + Chunk(m.fields, m.data, m.fill)
  }

  predicate MembersFit(ms: seq<Member>, decode: Decoder) {
    forall m <- ms :: MemberFits(m, decode)
  }

  function Stream(ms: seq<Member>, decode: Decoder): Bytes
    requires MembersFit(ms, decode)
  {
    if ms == [] then [] else MemberBytes(ms[0], decode) + Stream(ms[1..], decode)
  }

  // The path the standard gives an entry.
  function PathOf(m: Member, decode: Decoder): string {
    var own := if decode(m.fields.prefix) == "" then decode(m.fields.name)
               else decode(m.fields.prefix) + "/" + decode(m.fields.name);
    match m.naming
    case Own => own
    case LongName(_, name, _) => decode(name)
    case Extended(_, records, _) =>
      var attributes := Attributes(records, map[], decode);
      if "path" in attributes then attributes["path"] else own
  }

  datatype Kind = Directory | File | Link | Other

  function KindOf(flag: Byte): Kind {
    if flag == 53 then Directory
    else if flag == 0 || flag == 48 then File
    else if flag == 49 || flag == 50 then Link
    else Other
  }

  // An entry whose path leads out of the destination is refused, and so is a link that
  // has a place there.
  function Refusal(m: Member, env: Env): Option<Problem> {
    var path := PathOf(m, env.decode);
    if env.resolve(path) == Unsafe then Some(UnsafePath(path))
    else if env.resolve(path).At? && KindOf(m.fields.flag) == Link then Some(LinkRefused(path))
    else None
  }

  // What an entry asks for: a directory, or a file with its data, at its place.
  function Asked(m: Member, env: Env): seq<Action> {
    var place := env.resolve(PathOf(m, env.decode));
    if place.At? && KindOf(m.fields.flag) == Directory then [MakeDirectory(place.path)]
    else if place.At? && KindOf(m.fields.flag) == File then [WriteFile(place.path, m.data)]
    else []
  }

  // The entries one by one, up to the first that is refused.
  function Visit(ms: seq<Member>, done: seq<Action>, env: Env): (r: Outcome)
    ensures !r.OutOfFuel?
    decreases ms
  {
    if ms == [] then Extracted(done)
    else
      match Refusal(ms[0], env)
      case Some(problem) => Failed(problem, done)
      case None => Visit(ms[1..], done + Asked(ms[0], env), env)
  }

  // The reader enters an entry as it asks.
  lemma EntersAsAsked(m: Member, env: Env)
    ensures Enter(ReadFlag(m.fields.flag), PathOf(m, env.decode), m.data, env) ==
            if Refusal(m, env).Some? then Stops(Refusal(m, env).value) else Does(Asked(m, env))
  {
    hide PathOf;
  }

  lemma BlocksOf(data: Bytes, fill: Bytes)
    requires (|data| + |fill|) % BLOCK == 0 && |fill| < BLOCK
    ensures Blocks(|data|) == |data| + |fill|
  {
  }

  // What the walk sees at a block of an archive.
  lemma {:induction false} ChunkIsSeen(
    archive: Bytes, offset: nat, f: Fields, data: Bytes, fill: Bytes, rest: Bytes, decode: Decoder
  )
    requires Fills(f, data, fill) && DecodesAscii(decode) && offset <= |archive|
    requires archive[offset..] == Chunk(f, data, fill) + rest
    ensures offset + BLOCK + |data| <= |archive|
    ensures var block := Subarray(archive, offset, offset + BLOCK);
            && !AllZero(block)
            && ReadHeader(block, decode) == Some(Header(|data|, ReadFlag(f.flag), decode(f.name), decode(f.prefix)))
    ensures Subarray(archive, offset + BLOCK, offset + BLOCK + |data|) == data
    ensures offset + BLOCK + Blocks(|data|) == |archive| - |rest|
    ensures 0 <= |archive| - |rest| <= |archive| && archive[|archive| - |rest|..] == rest
  {
    hide HeaderBlock, DecodesAscii, AllZero, ReadHeader, Blocks, Power, FieldsFit, ReadFlag;
    var h := HeaderBlock(f);
    HeaderIsRead(f, decode);
    BlocksOf(data, fill);
    var pre := archive[..offset];
    assert archive == pre + archive[offset..];
    assert archive == pre + h + (data + fill + rest);
    Slice(pre, h, data + fill + rest);
    assert archive == pre + h + data + (fill + rest);
    Slice(pre + h, data, fill + rest);
    assert archive == (pre + h + data + fill) + rest;
  }

  function ChunkCount(m: Member): nat {
    if m.naming.Own? then 1 else 2
  }

  function ChunkTotal(ms: seq<Member>): nat {
    if ms == [] then 0 else ChunkCount(ms[0]) + ChunkTotal(ms[1..])
  }

  // The entry itself, with whatever path was set aside for it.
  lemma {:induction false} EntryIsEntered(
    archive: Bytes, offset: nat, pending: Option<string>, done: seq<Action>, env: Env, fuel: nat, m: Member, rest: Bytes
  )
    requires MemberFits(m, env.decode) && DecodesAscii(env.decode) && offset <= |archive| && fuel > 0
    requires archive[offset..] == Chunk(m.fields, m.data, m.fill) + rest
    requires PathOf(m, env.decode) == if pending.Some? then pending.value else PathOf(m.(naming := Own), env.decode)
    ensures |rest| <= |archive| && archive[|archive| - |rest|..] == rest
    ensures Walk(archive, Spot(offset, pending), done, env, fuel) ==
            match Enter(ReadFlag(m.fields.flag), PathOf(m, env.decode), m.data, env)
            case Stops(problem) => Failed(problem, done)
            case Does(actions) => Walk(archive, Spot(|archive| - |rest|, None), done + actions, env, fuel - 1)
  {
    hide HeaderBlock, DecodesAscii, AllZero, ReadHeader, Blocks, Enter, Subarray, Chunk, FieldsFit, Attributes;
    ChunkIsSeen(archive, offset, m.fields, m.data, m.fill, rest, env.decode);
  }

  lemma {:induction false} LongNameIsSetAside(
    archive: Bytes, offset: nat, done: seq<Action>, env: Env, fuel: nat, header: Fields, name: Bytes, fill: Bytes,
    rest: Bytes
  )
    requires header.flag == 76 && NoZero(name) && Fills(header, name + [0], fill) && DecodesAscii(env.decode)
    requires offset <= |archive| && fuel > 0 && archive[offset..] == Chunk(header, name + [0], fill) + rest
    ensures |rest| <= |archive| && archive[|archive| - |rest|..] == rest
    ensures Walk(archive, Spot(offset, None), done, env, fuel)
         == Walk(archive, Spot(|archive| - |rest|, Some(env.decode(name))), done, env, fuel - 1)
  {
    hide DecodesAscii, AllZero, ReadHeader, Blocks, Enter, Subarray, Chunk, FieldsFit, PaxAttributes, NoZero, ReadString;
    ChunkIsSeen(archive, offset, header, name + [0], fill, rest, env.decode);
    TextIsRead(name, [0], env.decode);
    assert done + [] == done;
  }

  lemma {:induction false} PaxPathIsSetAside(
    archive: Bytes, offset: nat, done: seq<Action>, env: Env, fuel: nat, header: Fields, records: seq<PaxRecord>,
    fill: Bytes, rest: Bytes
  )
    requires header.flag == 120 && Fills(header, Records(records), fill) && DecodesAscii(env.decode)
    requires forall r <- records :: RecordFits(r, env.decode)
    requires offset <= |archive| && fuel > 0 && archive[offset..] == Chunk(header, Records(records), fill) + rest
    ensures |rest| <= |archive| && archive[|archive| - |rest|..] == rest
    ensures var attributes := Attributes(records, map[], env.decode);
            Walk(archive, Spot(offset, None), done, env, fuel) ==
            Walk(archive, Spot(|archive| - |rest|, if "path" in attributes then Some(attributes["path"]) else None), done,
                 env, fuel - 1)
  {
    hide DecodesAscii, AllZero, ReadHeader, Blocks, Enter, Subarray, Chunk, FieldsFit, Attributes, PaxAttributes,
         RecordFits, ReadString, Records;
    ChunkIsSeen(archive, offset, header, Records(records), fill, rest, env.decode);
    RecordsAreRead([], records, map[], env.decode);
    assert [] + Records(records) == Records(records);
    assert done + [] == done;
  }

  // What comes before an entry sets its path aside.
  lemma {:induction false} NamingIsSetAside(
    archive: Bytes, offset: nat, done: seq<Action>, env: Env, fuel: nat, m: Member, rest: Bytes
  )
    returns (pending: Option<string>)
    requires MemberFits(m, env.decode) && DecodesAscii(env.decode) && offset <= |archive| && fuel >= ChunkCount(m)
    requires archive[offset..] == MemberBytes(m, env.decode) + rest
    ensures var entry := Chunk(m.fields, m.data, m.fill) + rest;
            && |entry| <= |archive| && archive[|archive| - |entry|..] == entry
            && Walk(archive, Spot(offset, None), done, env, fuel)
            == Walk(archive, Spot(|archive| - |entry|, pending), done, env, fuel - ChunkCount(m) + 1)
    ensures PathOf(m, env.decode) == if pending.Some? then pending.value else PathOf(m.(naming := Own), env.decode)
  {
    hide DecodesAscii, Chunk, FieldsFit, Attributes, RecordFits, NoZero, Walk;
    var entry := Chunk(m.fields, m.data, m.fill) + rest;
    match m.naming
    case Own =>
      assert MemberBytes(m, env.decode) + rest == entry;
      pending := None;
    case LongName(header, name, fill) =>
      assert MemberBytes(m, env.decode) + rest == Chunk(header, name + [0], fill) + entry;
      LongNameIsSetAside(archive, offset, done, env, fuel, header, name, fill, entry);
      pending := Some(env.decode(name));
    case Extended(header, records, fill) =>
      assert MemberBytes(m, env.decode) + rest == Chunk(header, Records(records), fill) + entry;
      PaxPathIsSetAside(archive, offset, done, env, fuel, header, records, fill, entry);
      var attributes := Attributes(records, map[], env.decode);
      pending := if "path" in attributes then Some(attributes["path"]) else None;
  }

  // An entry with what precedes it.
  lemma {:induction false} MemberIsEntered(
    archive: Bytes, offset: nat, done: seq<Action>, env: Env, fuel: nat, m: Member, rest: Bytes
  )
    requires MemberFits(m, env.decode) && DecodesAscii(env.decode) && offset <= |archive| && fuel >= ChunkCount(m)
    requires archive[offset..] == MemberBytes(m, env.decode) + rest
    ensures |rest| <= |archive| && archive[|archive| - |rest|..] == rest
    ensures Walk(archive, Spot(offset, None), done, env, fuel) ==
            match Enter(ReadFlag(m.fields.flag), PathOf(m, env.decode), m.data, env)
            case Stops(problem) => Failed(problem, done)
            case Does(actions) => Walk(archive, Spot(|archive| - |rest|, None), done + actions, env, fuel - ChunkCount(m))
  {
    hide DecodesAscii, Enter, Chunk, FieldsFit, Walk, PathOf, MemberBytes;
    var pending := NamingIsSetAside(archive, offset, done, env, fuel, m, rest);
    var entry := Chunk(m.fields, m.data, m.fill) + rest;
    EntryIsEntered(archive, |archive| - |entry|, pending, done, env, fuel - ChunkCount(m) + 1, m, rest);
  }

  lemma {:induction false} StreamIsWalked(
    archive: Bytes, offset: nat, done: seq<Action>, env: Env, fuel: nat, ms: seq<Member>, rest: Bytes
  )
    requires MembersFit(ms, env.decode) && DecodesAscii(env.decode) && offset <= |archive| && fuel >= ChunkTotal(ms)
    requires archive[offset..] == Stream(ms, env.decode) + rest
    ensures |rest| <= |archive| && archive[|archive| - |rest|..] == rest
    ensures Walk(archive, Spot(offset, None), done, env, fuel) ==
            match Visit(ms, done, env)
            case Extracted(all) => Walk(archive, Spot(|archive| - |rest|, None), all, env, fuel - ChunkTotal(ms))
            case other => other
    decreases ms
  {
    hide DecodesAscii, MemberFits, MemberBytes, PathOf, Enter, Walk, ChunkCount, Refusal, Asked;
    if ms == [] {
      assert Stream(ms, env.decode) + rest == rest;
    } else {
      var tail := Stream(ms[1..], env.decode) + rest;
      assert Stream(ms, env.decode) + rest == MemberBytes(ms[0], env.decode) + tail;
      MemberIsEntered(archive, offset, done, env, fuel, ms[0], tail);
      EntersAsAsked(ms[0], env);
      if Refusal(ms[0], env).None? {
        StreamIsWalked(archive, |archive| - |tail|, done + Asked(ms[0], env), env, fuel - ChunkCount(ms[0]), ms[1..], rest);
      } else {
        RestFits(archive, tail, rest, Stream(ms[1..], env.decode));
      }
    }
  }

  lemma {:induction false} RestFits(archive: Bytes, tail: Bytes, rest: Bytes, stream: Bytes)
    requires tail == stream + rest && |tail| <= |archive| && archive[|archive| - |tail|..] == tail
    ensures |rest| <= |archive| && archive[|archive| - |rest|..] == rest
  {
    assert archive == archive[..|archive| - |tail|] + tail;
  }

  // How the walk ends at the end of what it can read.
  lemma {:induction false} WalkEnds(archive: Bytes, offset: nat, done: seq<Action>, env: Env, fuel: nat)
    requires fuel > 0
    ensures offset + BLOCK > |archive| ==> Walk(archive, Spot(offset, None), done, env, fuel) == Failed(Unterminated, done)
    ensures offset + BLOCK <= |archive| && AllZero(Subarray(archive, offset, offset + BLOCK)) ==>
              Walk(archive, Spot(offset, None), done, env, fuel) == Extracted(done)
  {
    hide ReadHeader, AllZero, Subarray, Enter, PaxAttributes;
  }

  // ----- Main results -----

  /** An archive that ends with a block of zeros: exactly its entries, in order, up
      to the first one that is refused. What follows the zeros is not looked at. */
  lemma {:induction false} ArchiveIsExtracted(ms: seq<Member>, rest: Bytes, env: Env, fuel: nat)
    requires MembersFit(ms, env.decode) && DecodesAscii(env.decode) && fuel > ChunkTotal(ms)
    ensures Walk(Stream(ms, env.decode) + Zeros(BLOCK) + rest, START, [], env, fuel) == Visit(ms, [], env)
  {
    hide DecodesAscii, MembersFit, Stream, Visit, Walk;
    var stream, end := Stream(ms, env.decode), Zeros(BLOCK) + rest;
    var archive := stream + Zeros(BLOCK) + rest;
    assert archive == stream + end && archive[0..] == archive;
    StreamIsWalked(archive, 0, [], env, fuel, ms, end);
    Slice(stream, Zeros(BLOCK), rest);
    if Visit(ms, [], env).Extracted? {
      WalkEnds(archive, |stream|, Visit(ms, [], env).actions, env, fuel - ChunkTotal(ms));
    }
  }

  /** Without the closing block the same entries are extracted, and then it fails. */
  lemma {:induction false} OpenArchiveFails(ms: seq<Member>, rest: Bytes, env: Env, fuel: nat)
    requires MembersFit(ms, env.decode) && DecodesAscii(env.decode) && fuel > ChunkTotal(ms) && |rest| < BLOCK
    ensures Walk(Stream(ms, env.decode) + rest, START, [], env, fuel) ==
            match Visit(ms, [], env)
            case Extracted(all) => Failed(Unterminated, all)
            case other => other
  {
    hide DecodesAscii, MembersFit, Stream, Visit, Walk;
    var archive := Stream(ms, env.decode) + rest;
    assert archive[0..] == archive;
    StreamIsWalked(archive, 0, [], env, fuel, ms, rest);
    if Visit(ms, [], env).Extracted? {
      WalkEnds(archive, |archive| - |rest|, Visit(ms, [], env).actions, env, fuel - ChunkTotal(ms));
    }
  }

  /** Cut inside an entry's data, it fails after the entries before. */
  lemma {:induction false} CutArchiveFails(ms: seq<Member>, f: Fields, part: Bytes, env: Env, fuel: nat)
    requires MembersFit(ms, env.decode) && DecodesAscii(env.decode) && fuel > ChunkTotal(ms)
    requires FieldsFit(f) && |part| < f.size
    ensures Walk(Stream(ms, env.decode) + HeaderBlock(f) + part, START, [], env, fuel) ==
            match Visit(ms, [], env)
            case Extracted(all) => Failed(Truncated, all)
            case other => other
  {
    hide DecodesAscii, MembersFit, Stream, Visit, ReadHeader, HeaderBlock, AllZero, FieldsFit;
    var stream, end := Stream(ms, env.decode), HeaderBlock(f) + part;
    var archive := stream + HeaderBlock(f) + part;
    assert archive == stream + end && archive[0..] == archive;
    StreamIsWalked(archive, 0, [], env, fuel, ms, end);
    HeaderIsRead(f, env.decode);
    Slice(stream, HeaderBlock(f), part);
  }

  // What the first entries ask for, one after the other.
  function AskedOf(ms: seq<Member>, env: Env): seq<Action> {
    if ms == [] then [] else Asked(ms[0], env) + AskedOf(ms[1..], env)
  }

  /** Extraction fails with the problem of the first entry that is refused, after exactly
      what the entries before it ask for. */
  lemma {:induction false} FailsAtFirstRefused(ms: seq<Member>, done: seq<Action>, env: Env, k: nat)
    requires k < |ms| && Refusal(ms[k], env).Some? && forall i | 0 <= i < k :: Refusal(ms[i], env).None?
    ensures Visit(ms, done, env) == Failed(Refusal(ms[k], env).value, done + AskedOf(ms[..k], env))
    decreases ms
  {
    hide Refusal, Asked;
    if k == 0 {
      assert ms[..0] == [] && done + [] == done;
    } else {
      var own, rest := Asked(ms[0], env), ms[1..];
      FailsAtFirstRefused(rest, done + own, env, k - 1);
      assert ms[..k][1..] == rest[..k - 1];
      Associates(done, own, AskedOf(rest[..k - 1], env));
    }
  }

  /** With no entry refused, it succeeds and has done what all of them ask for. */
  lemma {:induction false} NoneRefused(ms: seq<Member>, done: seq<Action>, env: Env)
    requires forall i | 0 <= i < |ms| :: Refusal(ms[i], env).None?
    ensures Visit(ms, done, env) == Extracted(done + AskedOf(ms, env))
    decreases ms
  {
    hide Refusal, Asked;
    if ms == [] {
      assert done + [] == done;
    } else {
      var own, rest := Asked(ms[0], env), ms[1..];
      NoneRefused(rest, done + own, env);
      Associates(done, own, AskedOf(rest, env));
    }
  }

  lemma Associates(a: seq<Action>, b: seq<Action>, c: seq<Action>)
    ensures a + (b + c) == a + b + c
  {
  }

  /** Whatever the archive is, every directory and file that is made has a place that
      some name resolves to, below the destination. */
  lemma {:induction false} NothingIsMadeElsewhere(archive: Bytes, spot: Spot, done: seq<Action>, env: Env, fuel: nat)
    requires forall a <- done :: HasPlace(a, env)
    ensures var r := Walk(archive, spot, done, env, fuel);
            !r.OutOfFuel? ==> forall a <- r.actions :: HasPlace(a, env)
    decreases fuel
  {
    hide Step, HasPlace;
    if fuel > 0 {
      var move := Step(archive, spot, env);
      if move.Go? {
        RoundHasPlaces(archive, spot, env);
        NothingIsMadeElsewhere(archive, move.spot, done + move.actions, env, fuel - 1);
      }
    }
  }

  ghost predicate HasPlace(a: Action, env: Env) {
    exists name :: env.resolve(name) == At(a.path)
  }

  lemma {:induction false} RoundHasPlaces(archive: Bytes, spot: Spot, env: Env)
    requires Step(archive, spot, env).Go?
    ensures forall a <- Step(archive, spot, env).actions :: HasPlace(a, env)
  {
    hide ReadHeader, PaxAttributes, ReadString, Subarray, AllZero, Blocks;
  }

  /** An archive of files and directories with places to go to: nothing is lost. */
  lemma {:induction false} EveryEntryIsMade(ms: seq<Member>, done: seq<Action>, env: Env)
    requires forall m <- ms :: env.resolve(PathOf(m, env.decode)).At?
    requires forall m <- ms :: m.fields.flag == 0 || m.fields.flag == 48 || m.fields.flag == 53
    ensures Visit(ms, done, env) == Extracted(done + Made(ms, env))
    decreases ms
  {
    hide PathOf;
    if ms == [] {
      assert done + Made(ms, env) == done;
    } else {
      var action := MadeOf(ms[0], env);
      EveryEntryIsMade(ms[1..], done + [action], env);
      assert done + Made(ms, env) == done + [action] + Made(ms[1..], env);
    }
  }

  function MadeOf(m: Member, env: Env): Action
    requires env.resolve(PathOf(m, env.decode)).At?
  {
    var path := env.resolve(PathOf(m, env.decode)).path;
    if m.fields.flag == 53 then MakeDirectory(path) else WriteFile(path, m.data)
  }

  function Made(ms: seq<Member>, env: Env): seq<Action>
    requires forall m <- ms :: env.resolve(PathOf(m, env.decode)).At?
  {
    if ms == [] then [] else [MadeOf(ms[0], env)] + Made(ms[1..], env)
  }

  /** A header whose size field is no octal number ends the extraction, after exactly what
      the entries before it ask for. */
  lemma {:induction false} BadSizeFails(ms: seq<Member>, block: Bytes, rest: Bytes, env: Env, fuel: nat)
    requires MembersFit(ms, env.decode) && DecodesAscii(env.decode) && fuel > ChunkTotal(ms)
    requires |block| == BLOCK && (exists i :: 0 <= i < BLOCK && block[i] != 0)
    requires var text := ReadString(block[124..136], env.decode);
             Trim(text) != "" && !IsDigitOf(Trim(text)[0], 8) && Trim(text)[0] != '-' && Trim(text)[0] != '+'
             && !IsSpace(Trim(text)[0])
    ensures Walk(Stream(ms, env.decode) + block + rest, START, [], env, fuel) ==
            match Visit(ms, [], env)
            case Extracted(all) => Failed(InvalidSize, all)
            case other => other
  {
    hide DecodesAscii, MembersFit, Stream, Visit, ReadString, Trim;
    var stream, archive := Stream(ms, env.decode), Stream(ms, env.decode) + block + rest;
    assert archive == stream + (block + rest) && archive[0..] == archive;
    StreamIsWalked(archive, 0, [], env, fuel, ms, block + rest);
    Slice(stream, block, rest);
    assert Subarray(block, 124, 136) == block[124..136];
    NoNumber(Trim(ReadString(block[124..136], env.decode)));
  }

  lemma NoNumber(text: string)
    requires text != "" && !IsDigitOf(text[0], 8) && text[0] != '-' && text[0] != '+' && !IsSpace(text[0])
    ensures ParseInt(text, 8) == None
  {
  }
}
