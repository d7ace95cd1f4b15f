/**
 What a document must look like to be parsed: how deep each line may stand, and what
 the scalars are that JSON reads.
 */
module YamlShape {

  import opened Objects
  import opened Options
  import opened Strings
  import opened YamlText
  import opened YamlParser
  import opened YamlBlankEnding
  import opened YamlTopKeys

  // ----- Scalars -----

  // A word in letters of either case.
  predicate IsWord(value: string, word: string) {
    |value| == |word| && forall i | 0 <= i < |word| :: value[i] == word[i] || value[i] as int + 32 == word[i] as int
  }

  /** The words are read in either case, and quoted strings and inline collections as JSON
      reads them; an error of JSON is an error. */
  lemma {:induction false} WordsAndJson(value: string, json: Json)
    ensures IsWord(value, "true") ==> ParseScalar(value, json) == Some(Bool(true))
    ensures IsWord(value, "false") ==> ParseScalar(value, json) == Some(Bool(false))
    ensures IsWord(value, "null") || value == "~" ==> ParseScalar(value, json) == Some(Null)
    ensures value != [] && value[0] == '"' && value[|value| - 1] == '"' ==> ParseScalar(value, json) == json(value)
    ensures value != [] && value[0] == '[' ==> ParseScalar(value, json) == if value == "[]" then Some(Sequence([])) else json(value)
    ensures value != [] && value[0] == '{' ==> ParseScalar(value, json) == if value == "{}" then Some(Mapping(EMPTY)) else json(value)
  {
    hide NumberText;
    WordLowers(value, "true");
    WordLowers(value, "false");
    WordLowers(value, "null");
    if value != [] && (value[0] == '"' || value[0] == '[' || value[0] == '{') {
      assert Lower(value)[0] == value[0];
    }
  }

  lemma {:induction false} WordLowers(value: string, word: string)
    requires forall i | 0 <= i < |word| :: 'a' <= word[i] <= 'z'
    ensures IsWord(value, word) ==> Lower(value) == word
  {
    if IsWord(value, word) {
      forall i | 0 <= i < |word|
        ensures Lower(value)[i] == word[i]
      {
      }
    }
  }

  // ----- Indentation -----

  // What may follow a line: nothing deeper, unless it is a bare key, and then by two.
  ghost predicate FollowedRight(lines: seq<ParsedLine>, i: nat)
    requires i < |lines|
  {
    var n := NextContent(lines, i + 1);
    n >= 0 && lines[n].indent > lines[i].indent ==>
      && lines[n].indent == lines[i].indent + 2 && !IsItem(lines[i].content)
      && SplitKeyValue(lines[i].content).Pair? && SplitKeyValue(lines[i].content).value == []
  }

  ghost predicate ShapedRight(lines: seq<ParsedLine>, from: int, to: int) {
    forall i | from <= i < to && 0 <= i < |lines| :: !IsBlank(lines[i]) ==> FollowedRight(lines, i)
  }

  lemma SequenceGoesNoDeeper(lines: seq<ParsedLine>, current: nat, indent: nat, values: seq<Value>, json: Json)
    ensures var n := NextContent(lines, current);
            ParseSequence(lines, current, indent, values, json).Parsed? && n >= 0 ==> lines[n].indent <= indent
  {
    hide ParseItem, ItemText, IsItem;
  }

  lemma MappingGoesNoDeeper(
    lines: seq<ParsedLine>, current: nat, indent: nat, acc: Properties, json: Json, fuel: nat
  )
    ensures var n := NextContent(lines, current);
            ParseMapping(lines, current, indent, acc, json, fuel).Parsed? && n >= 0 ==> lines[n].indent <= indent
  {
    hide ParseEntry, SplitKeyValue, IsItem, Assign;
  }

  lemma {:induction false} SequenceShaped(
    lines: seq<ParsedLine>, current: nat, indent: nat, values: seq<Value>, json: Json
  )
    ensures var r := ParseSequence(lines, current, indent, values, json);
            r.Parsed? ==> ShapedRight(lines, current, r.next)
    decreases |lines| - current
  {
    hide NextContent, ParseItem, ItemText, SplitKeyValue, IsItem;
    if current < |lines| {
      BlankUpToNext(lines, current);
      var n := NextContent(lines, current);
      if n >= 0 && lines[n].indent == indent && IsItem(lines[n].content) {
        var item := ParseItem(ItemText(lines[n].content), json);
        if item.Ok? {
          SequenceGoesNoDeeper(lines, n + 1, indent, values + [item.value], json);
          SequenceShaped(lines, n + 1, indent, values + [item.value], json);
        }
      }
    }
  }

  lemma {:induction false} BlockShaped(lines: seq<ParsedLine>, index: nat, indent: nat, json: Json, fuel: nat)
    ensures var r := ParseBlock(lines, index, indent, json, fuel);
            r.Parsed? ==> ShapedRight(lines, index, r.next)
    decreases fuel, 1
  {
    hide ParseMapping, ParseSequence, IsItem, ShapedRight;
    if index < |lines| && lines[index].indent == indent {
      if IsItem(lines[index].content) {
        SequenceShaped(lines, index, indent, [], json);
      } else {
        MappingShaped(lines, index, indent, EMPTY, json, fuel);
      }
    }
  }

  // The entry's own line and the block below it.
  lemma {:induction false} EntryShaped(
    lines: seq<ParsedLine>, n: nat, indent: nat, part: string, json: Json, fuel: nat
  )
    requires n < |lines| && lines[n].indent == indent && !IsItem(lines[n].content)
    requires SplitKeyValue(lines[n].content).Pair? && SplitKeyValue(lines[n].content).value == part
    ensures var r := ParseEntry(lines, n, indent, part, json, fuel);
            r.Parsed? ==> ShapedRight(lines, n + 1, r.next) && (part == [] || r.next == n + 1)
    ensures ParseEntry(lines, n, indent, part, json, fuel).Parsed? && part == [] ==> FollowedRight(lines, n)
    decreases fuel, 2
  {
    hide ParseBlock, ParseScalar, NextContent, SplitKeyValue, IsItem;
    var nested := NextContent(lines, n + 1);
    BlankUpToNext(lines, n + 1);
    if part == [] && nested >= 0 && lines[nested].indent == indent + 2 {
      BlockShaped(lines, nested, indent + 2, json, fuel);
    }
  }

  lemma {:induction false} MappingShaped(
    lines: seq<ParsedLine>, current: int, indent: nat, acc: Properties, json: Json, fuel: nat
  )
    requires -1 <= current
    ensures var r := ParseMapping(lines, current, indent, acc, json, fuel);
            r.Parsed? ==> ShapedRight(lines, current, r.next)
    decreases fuel, 0
  {
    hide ParseEntry, SplitKeyValue, NextContent, Assign, IsItem, FollowedRight;
    if fuel > 0 && current < |lines| {
      BlankUpToNext(lines, current);
      var n := NextContent(lines, current);
      if n >= 0 && lines[n].indent == indent && !IsItem(lines[n].content) {
        match SplitKeyValue(lines[n].content)
        case BadSplit(kind) =>
        case Pair(key, part) =>
          if key !in acc.entries {
            EntryShaped(lines, n, indent, part, json, fuel - 1);
            var entry := ParseEntry(lines, n, indent, part, json, fuel - 1);
            if entry.Parsed? {
              var next := Assign(acc, key, entry.value);
              MappingShaped(lines, entry.next, indent, next, json, fuel - 1);
              if part != [] && ParseMapping(lines, n + 1, indent, next, json, fuel - 1).Parsed? {
                MappingGoesNoDeeper(lines, n + 1, indent, next, json, fuel - 1);
                NotDeeperIsRight(lines, n, indent);
              }
            }
          }
      }
    }
  }

  lemma NotDeeperIsRight(lines: seq<ParsedLine>, n: nat, indent: nat)
    requires n < |lines| && lines[n].indent == indent
    requires var j := NextContent(lines, n + 1); j >= 0 ==> lines[j].indent <= indent
    ensures FollowedRight(lines, n)
  {
  }

  /** A document that is parsed is indented right: below a list item or a key with a value
      nothing stands deeper, and below a bare key whatever does stands two deeper. */
  lemma {:induction false} ParsedIsIndentedRight(lines: seq<ParsedLine>, json: Json, fuel: nat, i: nat)
    requires EndsWithContent(lines) && fuel > |lines| && ParseLines(lines, json, fuel).Parsed?
    requires i < |lines| && !IsBlank(lines[i])
    ensures FollowedRight(lines, i)
  {
    hide ParseBlock, FollowedRight, NextContent;
    ContentEndingStops(lines, json, fuel);
    NextExists(lines, 0);
    var start := NextContent(lines, 0);
    BlankUpToNext(lines, 0);
    BlockShaped(lines, start, lines[start].indent, json, fuel);
  }

  // ----- Lines -----

  // A line without tabs that stands at an even depth, if it has content at all.
  predicate GoodLine(source: string) {
    '\t' !in source && (Trim(Strip(source)) == [] || LeadingSpaces(Strip(source)) % 2 == 0)
  }

  lemma GoodLinesConvert(source: string, number: nat)
    ensures ToLine(source, number).Ok? <==> GoodLine(source)
    ensures ToLine(source, number).Ok? ==>
              var l := ToLine(source, number).value;
              l.lineNumber == number && l.content == Trim(Strip(source)) && l.indent % 2 == 0
              && (l.content != [] ==> l.indent == LeadingSpaces(Strip(source)))
  {
  }

  /** The lines of a text are accepted if and only if each of them has no tab and stands at
      an even depth; the first that does not decides the error. */
  lemma {:induction false} LinesAreGoodExactly(sources: seq<string>, from: nat)
    requires from <= |sources|
    ensures ToLines(sources, from).Ok? <==> forall i | from <= i < |sources| :: GoodLine(sources[i])
    ensures forall i | from <= i < |sources| && !GoodLine(sources[i]) && (forall j | from <= j < i :: GoodLine(sources[j])) ::
              ToLines(sources, from) == Error(if '\t' in sources[i] then TabInLine else OddIndentation, i + 1)
    decreases |sources| - from
  {
    hide ToLine, GoodLine;
    if from < |sources| {
      GoodLinesConvert(sources[from], from + 1);
      BadLineError(sources[from], from + 1);
      LinesAreGoodExactly(sources, from + 1);
    }
  }

  lemma BadLineError(source: string, number: nat)
    ensures !GoodLine(source) ==>
              ToLine(source, number) == Error(if '\t' in source then TabInLine else OddIndentation, number)
  {
  }
}
