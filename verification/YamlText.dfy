/**
 The text layer of the fallback YAML parser: white space, quotes, comments,
 and the splitting of a document into indented lines.
 */
module YamlText {

  import opened Options
  import opened Strings

  // ----- Quotes -----

  // The two flags of the scanners are never set together.
  datatype Quotes = Outside | InSingle | InDouble

  function After(q: Quotes, c: char): Quotes {
    if c == '\'' && q != InDouble then (if q == InSingle then Outside else InSingle)
    else if c == '"' && q != InSingle then (if q == InDouble then Outside else InDouble)
    else q
  }

  function Scan(q: Quotes, s: string): Quotes
    decreases s
  {
    if s == [] then q else Scan(After(q, s[0]), s[1..])
  }

  // The first place outside quotes where the character stands, or -1.
  function Find(q: Quotes, s: string, c: char): int
    requires c != '\'' && c != '"'
    ensures -1 <= Find(q, s, c) < |s|
    decreases s
  {
    if s == [] then -1
    else if q == Outside && s[0] == c then 0
    else
      var rest := Find(After(q, s[0]), s[1..], c);
      if rest < 0 then -1 else rest + 1
  }

  lemma {:induction false} ScanAppend(q: Quotes, a: string, b: string)
    ensures Scan(q, a + b) == Scan(Scan(q, a), b)
    decreases a
  {
    if a == [] {
      assert a + b == b;
    } else {
      assert (a + b)[1..] == a[1..] + b;
      ScanAppend(After(q, a[0]), a[1..], b);
    }
  }

  lemma {:induction false} FindAppend(q: Quotes, a: string, b: string, c: char)
    requires c != '\'' && c != '"'
    ensures Find(q, a, c) >= 0 ==> Find(q, a + b, c) == Find(q, a, c)
    ensures Find(q, a, c) < 0 ==>
            Find(q, a + b, c) == (var r := Find(Scan(q, a), b, c); if r < 0 then -1 else |a| + r)
    decreases a
  {
    if a == [] {
      assert a + b == b;
    } else {
      assert (a + b)[1..] == a[1..] + b;
      FindAppend(After(q, a[0]), a[1..], b, c);
    }
  }

  method FindKeyValueDelimiter(content: string) returns (r: int)
    ensures r == Find(Outside, content, ':')
  {
    r := ScanFor(content, ':');
  }

  // The scanning loop the delimiter and the comment search share.
  method ScanFor(input: string, target: char) returns (r: int)
    requires target != '\'' && target != '"'
    ensures r == Find(Outside, input, target)
  {
    var inSingle, inDouble := false, false;
    assert input[0..] == input;
    for index := 0 to |input|
      invariant !(inSingle && inDouble)
      invariant var q := if inSingle then InSingle else if inDouble then InDouble else Outside;
                Find(Outside, input, target) ==
                (var rest := Find(q, input[index..], target); if rest < 0 then -1 else index + rest)
    {
      var c := input[index];
      assert input[index..][1..] == input[index + 1..];
      if c == '\'' && !inDouble {
        inSingle := !inSingle;
        continue;
      }
      if c == '"' && !inSingle {
        inDouble := !inDouble;
        continue;
      }
      if !inSingle && !inDouble && c == target {
        return index;
      }
    }
    return -1;
  }

  function Strip(s: string): string {
    var k := Find(Outside, s, '#');
    if k < 0 then s else s[..k]
  }

  method StripInlineComment(input: string) returns (r: string)
    ensures r == Strip(input)
  {
    var index := ScanFor(input, '#');
    if index >= 0 {
      return input[..index];
    }
    return input;
  }

  function LeadingSpaces(s: string): nat {
    if s != [] && s[0] == ' ' then 1 + LeadingSpaces(s[1..]) else 0
  }

  method CountLeadingSpaces(input: string) returns (count: nat)
    ensures count == LeadingSpaces(input)
  {
    count := 0;
    assert input[0..] == input;
    while count < |input| && input[count] == ' '
      invariant count <= |input|
      invariant LeadingSpaces(input) == count + LeadingSpaces(input[count..])
    {
      assert input[count..][1..] == input[count + 1..];
      count := count + 1;
    }
  }

  // ----- Lines -----

  datatype ParsedLine = ParsedLine(lineNumber: nat, indent: nat, content: string)

  datatype ErrorKind =
    | TabInLine | OddIndentation | UnexpectedEnd | UnexpectedIndentation | IndentedTooFar
    | ItemInMapping | MissingDelimiter | EmptyKey | DuplicateKey(key: string) | NestedNotTwoSpaces
    | InvalidJson | TrailingContent

  datatype Result<+T> = Ok(value: T) | Error(kind: ErrorKind, line: nat)

  predicate IsBlank(l: ParsedLine) {
    l.content == []
  }

  // Contents are trimmed, and only lines with content carry an indentation.
  predicate WellFormed(l: ParsedLine) {
    IsTrimmed(l.content) && (IsBlank(l) ==> l.indent == 0)
  }

  function ToLine(original: string, number: nat): (r: Result<ParsedLine>)
    ensures r.Ok? ==> WellFormed(r.value)
  {
    if '\t' in original then Error(TabInLine, number)
    else
      var withoutComment := Strip(original);
      var content := Trim(withoutComment);
      var indent := if content == [] then 0 else LeadingSpaces(withoutComment);
      TrimmedResult(withoutComment);
      if content != [] && indent % 2 != 0 then Error(OddIndentation, number)
      else Ok(ParsedLine(number, indent, content))
  }

  // The lines from the given one on; the first bad line decides the error.
  function ToLines(sources: seq<string>, from: nat): (r: Result<seq<ParsedLine>>)
    requires from <= |sources|
    ensures r.Ok? ==> |r.value| == |sources| - from
    decreases |sources| - from
  {
    if from == |sources| then Ok([])
    else
      match ToLine(sources[from], from + 1)
      case Error(k, n) => Error(k, n)
      case Ok(line) =>
        match ToLines(sources, from + 1)
        case Error(k, n) => Error(k, n)
        case Ok(rest) => Ok([line] + rest)
  }

  lemma LineIsWellFormed(original: string, number: nat)
    ensures ToLine(original, number).Ok? ==> WellFormed(ToLine(original, number).value)
  {
  }

  lemma {:induction false} LinesAreConverted(sources: seq<string>, from: nat)
    requires from <= |sources| && ToLines(sources, from).Ok?
    ensures var lines := ToLines(sources, from).value;
            forall i :: 0 <= i < |lines| ==>
              ToLine(sources[from + i], from + i + 1) == Ok(lines[i]) && WellFormed(lines[i])
    decreases |sources| - from
  {
    hide ToLine, WellFormed;
    if from < |sources| {
      LinesAreConverted(sources, from + 1);
      LineIsWellFormed(sources[from], from + 1);
      var lines, rest := ToLines(sources, from).value, ToLines(sources, from + 1).value;
      forall i | 0 <= i < |lines|
        ensures ToLine(sources[from + i], from + i + 1) == Ok(lines[i]) && WellFormed(lines[i])
      {
        if i > 0 {
          assert lines[i] == rest[i - 1];
          assert ToLine(sources[from + 1 + (i - 1)], from + 1 + (i - 1) + 1) == Ok(rest[i - 1]);
        }
      }
    }
  }

  function NormalizeNewlines(s: string): string {
    if |s| >= 2 && s[0] == '\r' && s[1] == '\n' then "\n" + NormalizeNewlines(s[2..])
    else if s == [] then []
    else [s[0]] + NormalizeNewlines(s[1..])
  }

  // `split("\n")`: one more piece than there are newlines.
  function SplitLines(s: string): (r: seq<string>)
    ensures |r| > 0
  {
    if s == [] then [""]
    else
      var rest := SplitLines(s[1..]);
      if s[0] == '\n' then [""] + rest else [[s[0]] + rest[0]] + rest[1..]
  }

  function SourceLines(raw: string): seq<string> {
    SplitLines(NormalizeNewlines(raw))
  }

  method PreprocessYamlLines(raw: string) returns (r: Result<seq<ParsedLine>>)
    ensures r == ToLines(SourceLines(raw), 0)
  {
    var sourceLines := SourceLines(raw);
    var result: seq<ParsedLine> := [];
    assert forall rest: seq<ParsedLine> :: [] + rest == rest;
    for index := 0 to |sourceLines|
      invariant match ToLines(sourceLines, index)
                case Ok(rest) => ToLines(sourceLines, 0) == Ok(result + rest)
                case Error(k, n) => ToLines(sourceLines, 0) == Error(k, n)
    {
      var original := sourceLines[index];
      if '\t' in original {
        return Error(TabInLine, index + 1);
      }
      var withoutComment := StripInlineComment(original);
      var content := Trim(withoutComment);
      var indent := 0;
      if |content| != 0 {
        indent := CountLeadingSpaces(withoutComment);
      }
      if |content| > 0 && indent % 2 != 0 {
        return Error(OddIndentation, index + 1);
      }
      ghost var before := result;
      result := result + [ParsedLine(index + 1, indent, content)];
      assert forall rest :: before + ([ParsedLine(index + 1, indent, content)] + rest) == result + rest;
    }
    assert result + [] == result;
    return Ok(result);
  }
}
