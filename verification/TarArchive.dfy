/**
 The reader of tar archives that come out of the sandbox: header fields, pax
 attributes, and the walk over the archive's blocks.
 */
module TarArchive {

  import opened Objects
  import opened Options
  import opened Strings

  const BLOCK := 512

  // Where an entry's name leads: to a place below the destination, to the
  // destination itself, or out of it.
  datatype Resolution = At(path: string) | Root | Unsafe

  // UTF-8 decoding and path resolution belong to the runtime's libraries.
  datatype Env = Env(decode: Decoder, resolve: string -> Resolution)

  datatype Action = MakeDirectory(path: string) | WriteFile(path: string, data: Bytes)

  datatype Problem = InvalidSize | Truncated | Unterminated | UnsafePath(name: string) | LinkRefused(name: string)

  // How extraction ends, with what it did to the file system until then.
  datatype Outcome =
    | Extracted(actions: seq<Action>)
    | Failed(problem: Problem, actions: seq<Action>)
    | OutOfFuel

  // ----- Buffers -----

  function Clamp(i: int, n: nat): (k: nat)
    ensures k <= n
  {
    if i < 0 then (if n + i < 0 then 0 else n + i) else if i > n then n else i
  }

  // `subarray`: negative indices count from the end, and bounds are clamped.
  function Subarray(b: Bytes, start: int, end: int): Bytes {
    var s, e := Clamp(start, |b|), Clamp(end, |b|);
    if s < e then b[s..e] else []
  }

  function IndexOf(b: Bytes, value: Byte, from: nat): (k: int)
    ensures k == -1 || from <= k < |b|
    decreases |b| - from
  {
    if from >= |b| then -1 else if b[from] == value then from else IndexOf(b, value, from + 1)
  }

  function ReadString(input: Bytes, decode: Decoder): string {
    var k := IndexOf(input, 0, 0);
    decode(if k < 0 then input else input[..k])
  }

  predicate AllZero(input: Bytes) {
    forall i :: 0 <= i < |input| ==> input[i] == 0
  }

  function ReadOctal(input: Bytes, decode: Decoder): Option<int> {
    var raw := Trim(ReadString(input, decode));
    if raw == "" then Some(0) else ParseInt(raw, 8)
  }

  // ----- Pax attributes -----

  function IndexOfChar(s: string, c: char): (k: int)
    ensures -1 <= k < |s|
  {
    if s == "" then -1
    else if s[0] == c then 0
    else
      var k := IndexOfChar(s[1..], c);
      if k < 0 then -1 else k + 1
  }

  function PutRecord(attributes: map<string, string>, record: string): map<string, string> {
    var k := IndexOfChar(record, '=');
    if k > 0 then Put(attributes, record[..k], record[k + 1..]) else attributes
  }

  // The length of the record at the offset, if it has one the loop goes on with.
  function RecordLength(input: Bytes, offset: nat, decode: Decoder): (r: Option<nat>)
    ensures r.Some? ==> 0 < r.value && offset + r.value <= |input| && IndexOf(input, 32, offset) >= 0
  {
    var spaceIndex := IndexOf(input, 32, offset);
    if spaceIndex < 0 then None
    else
      match ParseInt(decode(input[offset..spaceIndex]), 10)
      case None => None
      case Some(length) => if length <= 0 || offset + length > |input| then None else Some(length)
  }

  function PaxAttributes(
    input: Bytes, offset: nat, attributes: map<string, string>, decode: Decoder
  ): map<string, string>
    decreases |input| - offset
  {
    if offset >= |input| then attributes
    else
      match RecordLength(input, offset, decode)
      case None => attributes
      case Some(length) =>
        var spaceIndex := IndexOf(input, 32, offset);
        var record := TrimEnd(decode(Subarray(input, spaceIndex + 1, offset + length)));
        PaxAttributes(input, offset + length, PutRecord(attributes, record), decode)
  }

  method ParsePaxAttributes(input: Bytes, decode: Decoder) returns (attributes: map<string, string>)
    ensures attributes == PaxAttributes(input, 0, map[], decode)
  {
    hide ParseInt, TrimEnd, IndexOf, IndexOfChar, Subarray, Put;
    attributes := map[];
    var offset := 0;
    while offset < |input|
      invariant 0 <= offset
      invariant PaxAttributes(input, 0, map[], decode) == PaxAttributes(input, offset, attributes, decode)
      decreases |input| - offset
    {
      var spaceIndex := IndexOf(input, 32, offset);
      if spaceIndex == -1 {
        break;
      }
      var length := ParseInt(decode(input[offset..spaceIndex]), 10);
      if length.None? || length.value <= 0 || offset + length.value > |input| {
        break;
      }
      var record := TrimEnd(decode(Subarray(input, spaceIndex + 1, offset + length.value)));
      var separatorIndex := IndexOfChar(record, '=');
      if separatorIndex > 0 {
        attributes := Put(attributes, record[..separatorIndex], record[separatorIndex + 1..]);
      }
      offset := offset + length.value;
    }
  }

  // ----- One header -----

  datatype Header = Header(size: int, flag: Byte, name: string, prefix: string)

  // Absent (in a block cut short) or zero means a regular file.
  function FlagOf(block: Bytes): Byte {
    if |block| <= 156 || block[156] == 0 then 48 else block[156]
  }

  function ReadHeader(block: Bytes, decode: Decoder): Option<Header> {
    match ReadOctal(Subarray(block, 124, 136), decode)
    case None => None
    case Some(size) =>
      var name := ReadString(Subarray(block, 0, 100), decode);
      var prefix := ReadString(Subarray(block, 345, 500), decode);
      Some(Header(size, FlagOf(block), name, prefix))
  }

  function Name(h: Header): string {
    if h.prefix == "" then h.name else h.prefix + "/" + h.name
  }

  // `Math.ceil(size / 512) * 512`.
  function Blocks(size: int): int {
    -((-size) / BLOCK) * BLOCK
  }

  // What an ordinary entry does.
  datatype Effect = Does(actions: seq<Action>) | Stops(problem: Problem)

  function Enter(flag: Byte, name: string, data: Bytes, env: Env): Effect {
    match env.resolve(name)
    case Unsafe => Stops(UnsafePath(name))
    case Root => Does([])
    case At(path) =>
      if flag == 53 then Does([MakeDirectory(path)])
      else if flag == 48 then Does([WriteFile(path, data)])
      else if flag == 49 || flag == 50 then Stops(LinkRefused(name))
      else Does([])
  }

  // ----- The walk -----

  // The loop's variables: where the next header is read, and the path set aside for it.
  datatype Spot = Spot(offset: int, pending: Option<string>)

  // One round of the loop.
  datatype Move = Finish | Fail(problem: Problem) | Go(spot: Spot, actions: seq<Action>)

  function Step(archive: Bytes, spot: Spot, env: Env): Move {
    var offset, pending := spot.offset, spot.pending;
    if offset + BLOCK > |archive| then Fail(Unterminated)
    else
      var block := Subarray(archive, offset, offset + BLOCK);
      if AllZero(block) then Finish
      else
        match ReadHeader(block, env.decode)
        case None => Fail(InvalidSize)
        case Some(h) =>
          var dataStart := offset + BLOCK;
          if dataStart + h.size > |archive| then Fail(Truncated)
          else
            var data := Subarray(archive, dataStart, dataStart + h.size);
            var next := dataStart + Blocks(h.size);
            if h.flag == 76 then Go(Spot(next, Some(ReadString(data, env.decode))), [])
            else if h.flag == 120 then
              var attributes := PaxAttributes(data, 0, map[], env.decode);
              Go(Spot(next, if "path" in attributes then Some(attributes["path"]) else pending), [])
            else
              match Enter(h.flag, if pending.Some? then pending.value else Name(h), data, env)
              case Stops(problem) => Fail(problem)
              case Does(actions) => Go(Spot(next, None), actions)
  }

  // A negative size moves the offset back, so the walk counts down a fuel.
  function Walk(archive: Bytes, spot: Spot, done: seq<Action>, env: Env, fuel: nat): Outcome
    decreases fuel
  {
    if fuel == 0 then OutOfFuel
    else
      match Step(archive, spot, env)
      case Finish => Extracted(done)
      case Fail(problem) => Failed(problem, done)
      case Go(next, actions) => Walk(archive, next, done + actions, env, fuel - 1)
  }

  const START := Spot(0, None)

  method ExtractTarArchiveToDirectory(archive: Bytes, env: Env, ghost fuel: nat) returns (r: Outcome)
    requires !Walk(archive, START, [], env, fuel).OutOfFuel?
    ensures r == Walk(archive, START, [], env, fuel)
  {
    hide ReadHeader, AllZero, ReadString, PaxAttributes, Enter, Subarray, Blocks, Name;
    assert forall d: seq<Action> :: d + [] == d;
    var offset: int := 0;
    var pendingPath: Option<string> := None;
    var done: seq<Action> := [];
    ghost var left: nat := fuel;
    while offset + BLOCK <= |archive|
      invariant left <= fuel
      invariant Walk(archive, START, [], env, fuel) == Walk(archive, Spot(offset, pendingPath), done, env, left)
      decreases left
    {
      assert left > 0;
      left := left - 1;
      var block := Subarray(archive, offset, offset + BLOCK);
      if AllZero(block) {
        return Extracted(done);
      }
      var header := ReadHeader(block, env.decode);
      if header.None? {
        return Failed(InvalidSize, done);
      }
      var h := header.value;
      var dataStart := offset + BLOCK;
      var dataEnd := dataStart + h.size;
      if dataEnd > |archive| {
        return Failed(Truncated, done);
      }
      var data := Subarray(archive, dataStart, dataEnd);
      var nextOffset := dataStart + Blocks(h.size);
      if h.flag == 76 {
        pendingPath := Some(ReadString(data, env.decode));
        offset := nextOffset;
        continue;
      }
      if h.flag == 120 {
        var attributes := ParsePaxAttributes(data, env.decode);
        if "path" in attributes {
          pendingPath := Some(attributes["path"]);
        }
        offset := nextOffset;
        continue;
      }
      var entryName := if pendingPath.Some? then pendingPath.value else Name(h);
      pendingPath := None;
      match Enter(h.flag, entryName, data, env) {
        case Stops(problem) => return Failed(problem, done);
        case Does(actions) => done := done + actions;
      }
      offset := nextOffset;
    }
    return Failed(Unterminated, done);
  }
}
