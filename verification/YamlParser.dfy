/**
 The fallback block parser itself. Each recursive function follows one source
 function; the methods below are the source's loops, proved equal to them.

 A block that reaches the end of the lines returns -1 as its next index, and the
 enclosing block then starts over at the first line. Whether that ever stops
 depends on the keys, so the mapping functions count down a fuel.
 */
module YamlParser {

  import opened Objects
  import opened Options
  import opened Strings
  import opened YamlText

  // A number is kept as the text that denotes it.
  datatype Value =
    | Null
    | Bool(b: bool)
    | Number(text: string)
    | Str(s: string)
    | Sequence(items: seq<Value>)
    | Mapping(properties: Properties)

  // The own properties of an object, their order not kept, and whether assigning to
  // its `__proto__` finds the setter that all objects inherit by default.
  datatype Properties = Properties(entries: map<string, Value>, setter: bool)

  const EMPTY := Properties(map[], true)

  // Whether an object with this prototype still finds the setter. Primitive values
  // are not made prototypes.
  predicate KeepsSetter(v: Value) {
    match v
    case Null => false
    case Mapping(p) => p.setter && PROTO !in p.entries
    case _ => true
  }

  // `o[key] = v`: the setter replaces the prototype and adds no own property; a
  // prototype that is null, or has its own `__proto__`, puts the setter out of reach.
  function Assign(o: Properties, key: string, v: Value): Properties {
    if key == PROTO && o.setter then o.(setter := KeepsSetter(v)) else o.(entries := o.entries[key := v])
  }

  datatype Outcome = Parsed(value: Value, next: int) | Failed(kind: ErrorKind, line: nat) | OutOfFuel

  // `JSON.parse`, with None for a syntax error.
  type Json = string -> Option<Value>

  // ----- Scalars -----

  predicate StartsWith(s: string, prefix: string) {
    prefix <= s
  }

  // Lower case of the ASCII letters; no other letter maps into the words compared with.
  function Lower(s: string): string {
    seq(|s|, i requires 0 <= i < |s| => LowerChar(s[i]))
  }

  predicate IsDigit(c: char) {
    '0' <= c <= '9'
  }

  predicate AllDigits(s: string) {
    forall i :: 0 <= i < |s| ==> IsDigit(s[i])
  }

  predicate IntegerText(s: string) {
    s == "0" || (s != [] && s[0] != '0' && AllDigits(s))
  }

  predicate NumberText(s: string) {
    var digits := if StartsWith(s, "-") then s[1..] else s;
    || IntegerText(digits)
    || exists k | 0 <= k < |digits| ::
         digits[k] == '.' && IntegerText(digits[..k]) && k + 1 < |digits| && AllDigits(digits[k + 1..])
  }

  // Two quotes become one, from left to right.
  function Unescape(s: string): string {
    if |s| >= 2 && s[0] == '\'' && s[1] == '\'' then "'" + Unescape(s[2..])
    else if s == [] then []
    else [s[0]] + Unescape(s[1..])
  }

  // What lies between the first and the last character; empty when there is nothing.
  function Inner(s: string): string {
    if |s| < 2 then "" else s[1..|s| - 1]
  }

  function ParseScalar(value: string, json: Json): Option<Value> {
    if Lower(value) == "true" then Some(Bool(true))
    else if Lower(value) == "false" then Some(Bool(false))
    else if Lower(value) == "null" || value == "~" then Some(Null)
    else if value == "{}" then Some(Mapping(EMPTY))
    else if value == "[]" then Some(Sequence([]))
    else if value != [] && value[0] == '"' && value[|value| - 1] == '"' then json(value)
    else if value != [] && value[0] == '\'' && value[|value| - 1] == '\'' then Some(Str(Unescape(Inner(value))))
    else if value != [] && (value[0] == '[' || value[0] == '{') then json(value)
    else if NumberText(value) then Some(Number(value))
    else Some(Str(value))
  }

  // ----- Lines -----

  function NextContent(lines: seq<ParsedLine>, index: int): (n: int)
    requires -1 <= index
    ensures n == -1 || (index <= n < |lines| && 0 <= n && !IsBlank(lines[n]))
    decreases |lines| - index
  {
    if index >= |lines| then -1
    else if index >= 0 && !IsBlank(lines[index]) then index
    else NextContent(lines, index + 1)
  }

  method NextContentLine(lines: seq<ParsedLine>, index: int) returns (r: int)
    requires -1 <= index
    ensures r == NextContent(lines, index)
  {
    var next := index;
    while next < |lines|
      invariant -1 <= next
      invariant NextContent(lines, index) == NextContent(lines, next)
      decreases |lines| - next
    {
      if next >= 0 && |lines[next].content| > 0 {
        return next;
      }
      next := next + 1;
    }
    return -1;
  }

  datatype Split = Pair(key: string, value: string) | BadSplit(kind: ErrorKind)

  function SplitKeyValue(content: string): Split {
    var delimiter := Find(Outside, content, ':');
    if delimiter < 0 then BadSplit(MissingDelimiter)
    else if Trim(content[..delimiter]) == [] then BadSplit(EmptyKey)
    else Pair(Trim(content[..delimiter]), TrimStart(content[delimiter + 1..]))
  }

  // No delimiter and no open quote up to the end of the key.
  predicate IsKeyText(key: string) {
    key != [] && IsTrimmed(key) && Find(Outside, key, ':') < 0 && Scan(Outside, key) == Outside
  }

  lemma {:induction false} SplitAtDelimiter(key: string, rest: string)
    requires IsKeyText(key)
    ensures SplitKeyValue(key + ":" + rest) == Pair(key, TrimStart(rest))
  {
    hide Scan, Trim, TrimStart;
    var content := key + ":" + rest;
    assert content == key + (":" + rest);
    FindAppend(Outside, key, ":" + rest, ':');
    assert content[..|key|] == key && content[|key| + 1..] == rest;
    TrimKeepsTrimmed(key);
  }

  lemma {:induction false} PlainText(s: string)
    requires forall i | 0 <= i < |s| :: s[i] != '\'' && s[i] != '"' && s[i] != ':'
    ensures Find(Outside, s, ':') < 0 && Scan(Outside, s) == Outside
  {
    if s != [] {
      PlainText(s[1..]);
    }
  }

  predicate IsItem(content: string) {
    StartsWith(content, "- ")
  }

  function ItemText(content: string): string
    requires IsItem(content)
  {
    TrimStart(content[2..])
  }

  // The text of an item is never empty, so the source's branch for an item on a
  // line of its own cannot be taken.
  lemma {:induction false} ItemTextIsNotEmpty(content: string)
    requires IsTrimmed(content) && IsItem(content)
    ensures ItemText(content) != []
  {
    assert content[0] == '-' && content[1] == ' ';
    TrimStartKeepsLast(content[2..]);
  }

  lemma {:induction false} TrimStartKeepsLast(s: string)
    requires s != [] && !IsSpace(s[|s| - 1])
    ensures TrimStart(s) != [] && TrimStart(s)[|TrimStart(s)| - 1] == s[|s| - 1]
  {
    if IsSpace(s[0]) {
      TrimStartKeepsLast(s[1..]);
    }
  }

  // ----- The block parser -----

  // One item: a mapping of one key when a delimiter stands after the first character.
  function ParseItem(text: string, json: Json): Result<Value> {
    if Find(Outside, text, ':') > 0 then
      match SplitKeyValue(text)
      case BadSplit(kind) => Error(kind, 0)
      case Pair(key, part) =>
        match ParseScalar(part, json)
        case None => Error(InvalidJson, 0)
        case Some(v) => Ok(Mapping(Assign(EMPTY, key, v)))
    else
      match ParseScalar(text, json)
      case None => Error(InvalidJson, 0)
      case Some(v) => Ok(v)
  }

  function ParseSequence(
    lines: seq<ParsedLine>, current: nat, indent: nat, values: seq<Value>, json: Json
  ): (r: Outcome)
    ensures r.Parsed? ==> -1 <= r.next && r.value.Sequence?
    ensures !r.OutOfFuel?
    decreases |lines| - current
  {
    if current >= |lines| then Parsed(Sequence(values), current)
    else
      var n := NextContent(lines, current);
      if n < 0 then Parsed(Sequence(values), -1)
      else
        var line := lines[n];
        if line.indent < indent then Parsed(Sequence(values), n)
        else if line.indent > indent then Failed(IndentedTooFar, line.lineNumber)
        else if !IsItem(line.content) then Parsed(Sequence(values), n)
        else
          match ParseItem(ItemText(line.content), json)
          case Error(kind, _) => Failed(kind, line.lineNumber)
          case Ok(v) => ParseSequence(lines, n + 1, indent, values + [v], json)
  }

  function ParseBlock(lines: seq<ParsedLine>, index: nat, indent: nat, json: Json, fuel: nat): (r: Outcome)
    ensures r.Parsed? ==> -1 <= r.next
    decreases fuel, 1
  {
    if index >= |lines| then Failed(UnexpectedEnd, 1)
    else if lines[index].indent != indent then Failed(UnexpectedIndentation, lines[index].lineNumber)
    else if IsItem(lines[index].content) then ParseSequence(lines, index, indent, [], json)
    else ParseMapping(lines, index, indent, EMPTY, json, fuel)
  }

  function ParseMapping(
    lines: seq<ParsedLine>, current: int, indent: nat, acc: Properties, json: Json, fuel: nat
  ): (r: Outcome)
    requires -1 <= current
    ensures r.Parsed? ==> -1 <= r.next && r.value.Mapping?
    decreases fuel, 0
  {
    if fuel == 0 then OutOfFuel
    else if current >= |lines| then Parsed(Mapping(acc), current)
    else
      var n := NextContent(lines, current);
      if n < 0 then Parsed(Mapping(acc), -1)
      else if lines[n].indent < indent then Parsed(Mapping(acc), n)
      else if lines[n].indent > indent then Failed(IndentedTooFar, lines[n].lineNumber)
      else if IsItem(lines[n].content) then Failed(ItemInMapping, lines[n].lineNumber)
      else
        match SplitKeyValue(lines[n].content)
        case BadSplit(kind) => Failed(kind, lines[n].lineNumber)
        case Pair(key, part) =>
          if key in acc.entries then Failed(DuplicateKey(key), lines[n].lineNumber)
          else
            match ParseEntry(lines, n, indent, part, json, fuel - 1)
            case Parsed(v, next) => ParseMapping(lines, next, indent, Assign(acc, key, v), json, fuel - 1)
            case other => other
  }

  // The value of the key on line n: on the line itself, or the block below it.
  function ParseEntry(
    lines: seq<ParsedLine>, n: nat, indent: nat, part: string, json: Json, fuel: nat
  ): (r: Outcome)
    requires n < |lines|
    ensures r.Parsed? ==> -1 <= r.next
    decreases fuel, 2
  {
    if part == [] then
      var nested := NextContent(lines, n + 1);
      if nested < 0 || lines[nested].indent <= indent then Parsed(Mapping(EMPTY), n + 1)
      else if lines[nested].indent != indent + 2 then Failed(NestedNotTwoSpaces, lines[nested].lineNumber)
      else ParseBlock(lines, nested, indent + 2, json, fuel)
    else
      match ParseScalar(part, json)
      case None => Failed(InvalidJson, lines[n].lineNumber)
      case Some(v) => Parsed(v, n + 1)
  }

  // A whole list of lines: one block, and nothing after it.
  function ParseLines(lines: seq<ParsedLine>, json: Json, fuel: nat): Outcome {
    var start := NextContent(lines, 0);
    if start < 0 then Parsed(Mapping(EMPTY), -1)
    else
      match ParseBlock(lines, start, lines[start].indent, json, fuel)
      case Parsed(v, next) =>
        var trailing := NextContent(lines, next);
        if trailing >= 0 then Failed(TrailingContent, lines[trailing].lineNumber) else Parsed(v, next)
      case other => other
  }

  // Text that is read as JSON, before any line is looked at.
  predicate TakenAsJson(raw: string, json: Json) {
    var trimmed := Trim(raw);
    trimmed != [] && (trimmed[0] == '{' || trimmed[0] == '[') && json(trimmed).Some?
  }

  function ParseText(raw: string, json: Json, fuel: nat): Outcome {
    if Trim(raw) == [] then Parsed(Mapping(EMPTY), -1)
    else if TakenAsJson(raw, json) then Parsed(json(Trim(raw)).value, -1)
    else
      match ToLines(SourceLines(raw), 0)
      case Error(kind, line) => Failed(kind, line)
      case Ok(lines) => ParseLines(lines, json, fuel)
  }

  // ----- The loops -----

  method ParseYamlSequence(lines: seq<ParsedLine>, index: nat, indent: nat, json: Json) returns (r: Outcome)
    requires forall l <- lines :: WellFormed(l)
    ensures r == ParseSequence(lines, index, indent, [], json)
  {
    hide Find, Trim, TrimStart, ParseScalar, SplitKeyValue, NextContent, Assign;
    var values: seq<Value> := [];
    var current: int := index;
    while current < |lines|
      invariant 0 <= current
      invariant ParseSequence(lines, index, indent, [], json) == ParseSequence(lines, current, indent, values, json)
      decreases |lines| - current
    {
      var n := NextContentLine(lines, current);
      if n < 0 {
        return Parsed(Sequence(values), n);
      }
      current := n;
      var line := lines[current];
      if line.indent < indent {
        break;
      }
      if line.indent > indent {
        return Failed(IndentedTooFar, line.lineNumber);
      }
      if !IsItem(line.content) {
        break;
      }
      var itemText := TrimStart(line.content[2..]);
      assert WellFormed(line) by { assert line in lines; }
      assert itemText != [] by { ItemTextIsNotEmpty(line.content); }
      var delimiter := FindKeyValueDelimiter(itemText);
      if delimiter > 0 {
        match SplitKeyValue(itemText) {
          case BadSplit(kind) => return Failed(kind, line.lineNumber);
          case Pair(key, part) =>
            match ParseScalar(part, json) {
              case None => return Failed(InvalidJson, line.lineNumber);
              case Some(v) => values := values + [Mapping(Assign(EMPTY, key, v))];
            }
        }
        current := current + 1;
        continue;
      }
      match ParseScalar(itemText, json) {
        case None => return Failed(InvalidJson, line.lineNumber);
        case Some(v) => values := values + [v];
      }
      current := current + 1;
    }
    return Parsed(Sequence(values), current);
  }

  method ParseYamlBlock(lines: seq<ParsedLine>, index: nat, indent: nat, json: Json, ghost fuel: nat)
    returns (r: Outcome)
    requires forall l <- lines :: WellFormed(l)
    requires !ParseBlock(lines, index, indent, json, fuel).OutOfFuel?
    ensures r == ParseBlock(lines, index, indent, json, fuel)
    decreases fuel, 1
  {
    if index >= |lines| {
      return Failed(UnexpectedEnd, 1);
    }
    var line := lines[index];
    if line.indent != indent {
      return Failed(UnexpectedIndentation, line.lineNumber);
    }
    if IsItem(line.content) {
      r := ParseYamlSequence(lines, index, indent, json);
    } else {
      r := ParseYamlMapping(lines, index, indent, json, fuel);
    }
  }

  method ParseYamlMapping(lines: seq<ParsedLine>, index: nat, indent: nat, json: Json, ghost fuel: nat)
    returns (r: Outcome)
    requires forall l <- lines :: WellFormed(l)
    requires !ParseMapping(lines, index, indent, EMPTY, json, fuel).OutOfFuel?
    ensures r == ParseMapping(lines, index, indent, EMPTY, json, fuel)
    decreases fuel, 0
  {
    hide Find, Trim, TrimStart, ParseScalar, SplitKeyValue, NextContent, Assign, IsTrimmed, ParseBlock;
    var value := EMPTY;
    var current: int := index;
    ghost var left: nat := fuel;
    while current < |lines|
      invariant -1 <= current && left <= fuel
      invariant ParseMapping(lines, index, indent, EMPTY, json, fuel)
             == ParseMapping(lines, current, indent, value, json, left)
      decreases left
    {
      var n := NextContentLine(lines, current);
      if n < 0 {
        return Parsed(Mapping(value), n);
      }
      current := n;
      var line := lines[current];
      if line.indent < indent {
        break;
      }
      if line.indent > indent {
        return Failed(IndentedTooFar, line.lineNumber);
      }
      if IsItem(line.content) {
        return Failed(ItemInMapping, line.lineNumber);
      }
      var split := SplitKeyValue(line.content);
      if split.BadSplit? {
        return Failed(split.kind, line.lineNumber);
      }
      if split.key in value.entries {
        return Failed(DuplicateKey(split.key), line.lineNumber);
      }
      assert left > 0;
      left := left - 1;
      if split.value == [] {
        var nested := NextContentLine(lines, current + 1);
        if nested < 0 || lines[nested].indent <= indent {
          value := Assign(value, split.key, Mapping(EMPTY));
          current := current + 1;
          continue;
        }
        if lines[nested].indent != indent + 2 {
          return Failed(NestedNotTwoSpaces, lines[nested].lineNumber);
        }
        var block := ParseYamlBlock(lines, nested, indent + 2, json, left);
        if !block.Parsed? {
          return block;
        }
        value := Assign(value, split.key, block.value);
        current := block.next;
        continue;
      }
      match ParseScalar(split.value, json) {
        case None => return Failed(InvalidJson, line.lineNumber);
        case Some(v) => value := Assign(value, split.key, v);
      }
      current := current + 1;
    }
    return Parsed(Mapping(value), current);
  }

  method ParseSimpleYaml(raw: string, json: Json, ghost fuel: nat) returns (r: Outcome)
    requires !ParseText(raw, json, fuel).OutOfFuel?
    ensures r == ParseText(raw, json, fuel)
  {
    var trimmed := Trim(raw);
    if |trimmed| == 0 {
      return Parsed(Mapping(EMPTY), -1);
    }
    if trimmed[0] == '{' || trimmed[0] == '[' {
      var parsed := json(trimmed);
      if parsed.Some? {
        return Parsed(parsed.value, -1);
      }
    }
    var read := PreprocessYamlLines(raw);
    if read.Error? {
      return Failed(read.kind, read.line);
    }
    var lines := read.value;
    LinesAreConverted(SourceLines(raw), 0);
    var start := NextContentLine(lines, 0);
    if start < 0 {
      return Parsed(Mapping(EMPTY), -1);
    }
    var block := ParseYamlBlock(lines, start, lines[start].indent, json, fuel);
    if !block.Parsed? {
      return block;
    }
    var trailing := NextContentLine(lines, block.next);
    if trailing >= 0 {
      return Failed(TrailingContent, lines[trailing].lineNumber);
    }
    return block;
  }
}
