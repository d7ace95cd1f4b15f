/**
 Printing and parsing back. A tree of nested mappings, lists and scalars is written
 with two spaces a level, with blank and comment lines anywhere between; the block
 parser returns the tree's value exactly when the last line has content.
 */
module YamlRoundTrip {

  import opened Objects
  import opened Options
  import opened Strings
  import opened YamlText
  import opened YamlParser
  import opened YamlBlankEnding

  // ----- Scalars and their texts -----

  datatype Scalar =
    | NullText
    | BoolText(b: bool)
    | Numeral(text: string)
    | Quoted(s: string)
    | Plain(s: string)
    | EmptyList
    | EmptyMap

  function Escape(s: string): string {
    if s == [] then [] else (if s[0] == '\'' then "''" else [s[0]]) + Escape(s[1..])
  }

  function Quote(s: string): string {
    "'" + Escape(s) + "'"
  }

  function Text(scalar: Scalar): string {
    match scalar
    case NullText => "null"
    case BoolText(b) => if b then "true" else "false"
    case Numeral(text) => text
    case Quoted(s) => Quote(s)
    case Plain(s) => s
    case EmptyList => "[]"
    case EmptyMap => "{}"
  }

  function Denoted(scalar: Scalar): Value {
    match scalar
    case NullText => Null
    case BoolText(b) => Bool(b)
    case Numeral(text) => Number(text)
    case Quoted(s) => Str(s)
    case Plain(s) => Str(s)
    case EmptyList => Sequence([])
    case EmptyMap => Mapping(EMPTY)
  }

  // What no single line can hold.
  predicate OneLine(s: string) {
    '\t' !in s && '\n' !in s
  }

  predicate Unquoted(s: string) {
    forall i | 0 <= i < |s| :: s[i] != '\'' && s[i] != '"' && s[i] != ':' && s[i] != '#'
  }

  predicate IsKeyword(s: string) {
    || Lower(s) == "true" || Lower(s) == "false" || Lower(s) == "null" || s == "~"
  }

  // A string may stand without quotes when no rule for the other scalars reads it.
  predicate IsPlain(s: string) {
    && s != [] && IsTrimmed(s) && OneLine(s) && Unquoted(s)
    && !IsKeyword(s) && s[0] != '[' && s[0] != '{' && !NumberText(s)
  }

  predicate ScalarFits(scalar: Scalar) {
    match scalar
    case Numeral(text) => NumberText(text)
    case Quoted(s) => OneLine(s)
    case Plain(s) => IsPlain(s)
    case _ => true
  }

  // A text that keeps its place on a line: no comment and no delimiter shows through.
  predicate SafeText(text: string) {
    && text != [] && IsTrimmed(text) && OneLine(text)
    && Find(Outside, text, '#') < 0 && Find(Outside, text, ':') < 0
  }

  lemma {:induction false} UnquotedScan(s: string)
    requires Unquoted(s)
    ensures Find(Outside, s, '#') < 0 && Find(Outside, s, ':') < 0
  {
    if s != [] {
      UnquotedScan(s[1..]);
    }
  }

  // Inside single quotes nothing is found, and an escaped text stays inside.
  lemma {:induction false} EscapeScan(s: string, c: char)
    requires c != '\'' && c != '"'
    ensures Find(InSingle, Escape(s), c) < 0 && Scan(InSingle, Escape(s)) == InSingle
    decreases s
  {
    if s != [] {
      EscapeScan(s[1..], c);
      var head := if s[0] == '\'' then "''" else [s[0]];
      assert Scan(InSingle, head) == InSingle && Find(InSingle, head, c) < 0 by {
        if s[0] == '\'' {
          assert head[1..] == "'" && "'"[1..] == "";
          assert Find(Outside, "'", c) < 0 && Scan(Outside, "'") == InSingle;
        } else {
          assert head[1..] == "";
        }
      }
      ScanAppend(InSingle, head, Escape(s[1..]));
      FindAppend(InSingle, head, Escape(s[1..]), c);
    }
  }

  lemma {:induction false} QuoteScan(s: string, c: char)
    requires c != '\'' && c != '"'
    ensures Find(Outside, Quote(s), c) < 0
  {
    EscapeScan(s, c);
    assert Quote(s)[1..] == Escape(s) + "'";
    FindAppend(InSingle, Escape(s), "'", c);
    assert Find(InSingle, "'", c) < 0;
  }

  lemma {:induction false} UnescapeEscape(s: string)
    ensures Unescape(Escape(s)) == s
  {
    if s != [] {
      UnescapeEscape(s[1..]);
      var tail := Escape(s[1..]);
      if s[0] == '\'' {
        assert Escape(s) == "''" + tail && ("''" + tail)[2..] == tail;
      } else {
        assert Escape(s) == [s[0]] + tail && ([s[0]] + tail)[1..] == tail;
      }
    }
  }

  lemma {:induction false} EscapeChars(s: string)
    requires OneLine(s)
    ensures OneLine(Escape(s))
  {
    if s != [] {
      assert s[0] != '\t' && s[0] != '\n';
      assert OneLine(s[1..]);
      EscapeChars(s[1..]);
    }
  }

  /** Quoting undoes itself: any string without tab and newline comes back. */
  lemma {:induction false} QuotedScalar(s: string, json: Json)
    requires OneLine(s)
    ensures SafeText(Quote(s)) && ParseScalar(Quote(s), json) == Some(Str(s))
  {
    hide Find, Unescape, Escape, Scan;
    var q := Quote(s);
    EscapeChars(s);
    QuoteScan(s, '#');
    QuoteScan(s, ':');
    UnescapeEscape(s);
    assert Inner(q) == Escape(s);
    assert Lower(q)[0] == '\'' && q[0] == '\'';
  }

  lemma IntegerDigits(s: string)
    requires IntegerText(s)
    ensures s != [] && AllDigits(s)
  {
  }

  lemma {:induction false} FractionDigits(digits: string)
    requires NumberText(digits) && !StartsWith(digits, "-")
    ensures digits != [] && IsDigit(digits[0]) && IsDigit(digits[|digits| - 1])
    ensures forall i | 0 <= i < |digits| :: IsDigit(digits[i]) || digits[i] == '.'
  {
    if IntegerText(digits) {
      IntegerDigits(digits);
    } else {
      var k :| 0 <= k < |digits| && digits[k] == '.' && IntegerText(digits[..k])
               && k + 1 < |digits| && AllDigits(digits[k + 1..]);
      IntegerDigits(digits[..k]);
      PointDigits(digits, k);
    }
  }

  lemma {:induction false} PointDigits(digits: string, k: nat)
    requires 0 < k && k + 1 < |digits| && digits[k] == '.' && AllDigits(digits[..k]) && AllDigits(digits[k + 1..])
    ensures IsDigit(digits[0]) && IsDigit(digits[|digits| - 1])
    ensures forall i | 0 <= i < |digits| :: IsDigit(digits[i]) || digits[i] == '.'
  {
    hide IsDigit;
    assert digits[0] == digits[..k][0];
    assert digits[|digits| - 1] == digits[k + 1..][|digits| - k - 2];
    forall i | 0 <= i < |digits| ensures IsDigit(digits[i]) || digits[i] == '.' {
      if i < k {
        assert digits[i] == digits[..k][i];
      } else if i > k {
        assert digits[i] == digits[k + 1..][i - k - 1];
      }
    }
  }

  lemma {:induction false} NumeralChars(text: string)
    requires NumberText(text)
    ensures text != [] && (IsDigit(text[0]) || text[0] == '-')
    ensures forall i | 0 <= i < |text| :: IsDigit(text[i]) || text[i] == '-' || text[i] == '.'
    ensures IsDigit(text[|text| - 1])
  {
    if StartsWith(text, "-") {
      var digits := text[1..];
      assert text == ['-'] + digits;
      assert !StartsWith(digits, "-") by {
        if IntegerText(digits) {
          IntegerDigits(digits);
        } else {
          var k :| 0 <= k < |digits| && digits[k] == '.' && IntegerText(digits[..k])
                   && k + 1 < |digits| && AllDigits(digits[k + 1..]);
          IntegerDigits(digits[..k]);
          assert digits[0] == digits[..k][0];
        }
      }
      FractionDigits(digits);
    } else {
      FractionDigits(text);
    }
  }

  lemma {:induction false} NumeralScalar(text: string, json: Json)
    requires NumberText(text)
    ensures SafeText(text) && ParseScalar(text, json) == Some(Number(text))
  {
    hide Find, NumberText;
    NumeralChars(text);
    UnquotedScan(text);
    assert Lower(text)[0] == text[0];
  }

  lemma {:induction false} PlainScalar(s: string, json: Json)
    requires IsPlain(s)
    ensures SafeText(s) && ParseScalar(s, json) == Some(Str(s))
  {
    hide Find, NumberText;
    UnquotedScan(s);
  }

  lemma {:induction false} BracketScalar(text: string, json: Json)
    requires text == "[]" || text == "{}"
    ensures SafeText(text)
    ensures ParseScalar(text, json) == Some(if text == "[]" then Sequence([]) else Mapping(EMPTY))
  {
    hide Find, NumberText;
    assert |text| == 2 && Unquoted(text);
    UnquotedScan(text);
    assert Lower(text)[0] == text[0];
  }

  lemma {:induction false} WordScalar(text: string, json: Json)
    requires text == "true" || text == "false" || text == "null"
    ensures SafeText(text)
    ensures ParseScalar(text, json) == Some(if text == "null" then Null else Bool(text == "true"))
  {
    hide Find, NumberText, Lower;
    assert Unquoted(text);
    UnquotedScan(text);
    assert Lower(text) == text by { WordIsLower(text); }
    assert "true"[0] == 't' && "false"[0] == 'f' && "null"[0] == 'n';
  }

  lemma WordIsLower(text: string)
    requires forall i | 0 <= i < |text| :: !('A' <= text[i] <= 'Z')
    ensures Lower(text) == text
  {
  }

  lemma {:induction false} ScalarTextParses(scalar: Scalar, json: Json)
    requires ScalarFits(scalar)
    ensures SafeText(Text(scalar)) && ParseScalar(Text(scalar), json) == Some(Denoted(scalar))
  {
    hide SafeText, ParseScalar, NumberText, IsPlain, OneLine;
    match scalar
    case Numeral(text) => NumeralScalar(text, json);
    case Quoted(s) => QuotedScalar(s, json);
    case Plain(s) => PlainScalar(s, json);
    case EmptyList => BracketScalar("[]", json);
    case EmptyMap => BracketScalar("{}", json);
    case _ => WordScalar(Text(scalar), json);
  }

  // ----- Trees and how they are printed -----

  // An item of a list: a scalar, or a mapping of one key.
  datatype ListItem = Bare(scalar: Scalar) | Keyed(key: string, scalar: Scalar)

  datatype Tree = Leaf(scalar: Scalar) | Items(items: seq<ListItem>) | Node(entries: seq<Entry>)
  datatype Entry = Entry(key: string, tree: Tree)

  // A line with content, as the block parser sees it.
  datatype Row = Row(indent: nat, content: string)

  // A key that stays a key; `__proto__` is no own property and is lost.
  predicate IsKey(key: string) {
    IsKeyText(key) && OneLine(key) && Find(Outside, key, '#') < 0 && !IsItem(key) && key != PROTO
  }

  predicate ItemFits(item: ListItem) {
    ScalarFits(item.scalar) && (item.Keyed? ==> IsKey(item.key))
  }

  predicate TreeFits(tree: Tree)
    decreases tree, 0
  {
    match tree
    case Leaf(scalar) => ScalarFits(scalar)
    case Items(items) => items != [] && forall item <- items :: ItemFits(item)
    case Node(entries) => EntriesFit(entries)
  }

  // Keys are distinct at every level.
  predicate EntriesFit(entries: seq<Entry>)
    decreases entries, 1
  {
    && (forall e <- entries :: IsKey(e.key) && TreeFits(e.tree))
    && (forall i, j | 0 <= i < j < |entries| :: entries[i].key != entries[j].key)
  }

  function ValueOf(tree: Tree): Value
    decreases tree, 0
  {
    match tree
    case Leaf(scalar) => Denoted(scalar)
    case Items(items) => Sequence(DenotedAll(items))
    case Node(entries) => Mapping(Properties(AddAll(map[], entries), true))
  }

  function ItemValue(item: ListItem): Value {
    match item
    case Bare(scalar) => Denoted(scalar)
    case Keyed(key, scalar) => Mapping(Properties(map[key := Denoted(scalar)], true))
  }

  function DenotedAll(items: seq<ListItem>): seq<Value> {
    if items == [] then [] else [ItemValue(items[0])] + DenotedAll(items[1..])
  }

  function AddAll(acc: map<string, Value>, entries: seq<Entry>): map<string, Value>
    decreases entries, 1
  {
    if entries == [] then acc else AddAll(acc[entries[0].key := ValueOf(entries[0].tree)], entries[1..])
  }

  function TextOf(item: ListItem): string {
    match item
    case Bare(scalar) => Text(scalar)
    case Keyed(key, scalar) => key + ":" + " " + Text(scalar)
  }

  function PrintItems(items: seq<ListItem>, indent: nat): seq<Row> {
    if items == [] then [] else [Row(indent, "- " + TextOf(items[0]))] + PrintItems(items[1..], indent)
  }

  function PrintEntry(e: Entry, indent: nat): (r: seq<Row>)
    ensures r != [] && r[0].indent == indent
    decreases e, 0
  {
    match e.tree
    case Leaf(scalar) => [Row(indent, e.key + ":" + " " + Text(scalar))]
    case Items(items) => [Row(indent, e.key + ":" + "")] + PrintItems(items, indent + 2)
    case Node(entries) => [Row(indent, e.key + ":" + "")] + PrintEntries(entries, indent + 2)
  }

  function PrintEntries(entries: seq<Entry>, indent: nat): (r: seq<Row>)
    ensures r == [] <==> entries == []
    ensures r != [] ==> r[0].indent == indent
    decreases entries, 1
  {
    if entries == [] then [] else PrintEntry(entries[0], indent) + PrintEntries(entries[1..], indent)
  }

  lemma {:induction false} AddAllKeeps(acc: map<string, Value>, entries: seq<Entry>, k: string)
    requires k in acc && forall e <- entries :: e.key != k
    ensures k in AddAll(acc, entries) && AddAll(acc, entries)[k] == acc[k]
    decreases entries
  {
    hide ValueOf;
    if entries != [] {
      AddAllKeeps(acc[entries[0].key := ValueOf(entries[0].tree)], entries[1..], k);
    }
  }

  /** Nothing is lost in the value of a node: every entry is found under its key. */
  lemma {:induction false} EntryIsFound(acc: map<string, Value>, entries: seq<Entry>, i: nat)
    requires i < |entries| && forall a, b | 0 <= a < b < |entries| :: entries[a].key != entries[b].key
    ensures entries[i].key in AddAll(acc, entries)
    ensures AddAll(acc, entries)[entries[i].key] == ValueOf(entries[i].tree)
    decreases entries
  {
    hide ValueOf;
    var acc' := acc[entries[0].key := ValueOf(entries[0].tree)];
    if i == 0 {
      AddAllKeeps(acc', entries[1..], entries[0].key);
    } else {
      EntryIsFound(acc', entries[1..], i - 1);
    }
  }

  /** And nothing else is found. */
  lemma {:induction false} OnlyEntriesAreFound(acc: map<string, Value>, entries: seq<Entry>, k: string)
    requires k in AddAll(acc, entries) && k !in acc
    ensures exists e :: e in entries && e.key == k
    decreases entries
  {
    hide ValueOf;
    if entries[0].key != k {
      OnlyEntriesAreFound(acc[entries[0].key := ValueOf(entries[0].tree)], entries[1..], k);
      var e :| e in entries[1..] && e.key == k;
      assert e in entries;
    } else {
      assert entries[0] in entries;
    }
  }

  // ----- Reading rows -----

  // The lines with content from an index on; blank lines carry nothing.
  function Rows(lines: seq<ParsedLine>, from: nat): seq<Row>
    decreases |lines| - from
  {
    if from >= |lines| then []
    else if IsBlank(lines[from]) then Rows(lines, from + 1)
    else [Row(lines[from].indent, lines[from].content)] + Rows(lines, from + 1)
  }

  lemma {:induction false} RowsNext(lines: seq<ParsedLine>, from: nat)
    requires from <= |lines|
    ensures var n := NextContent(lines, from);
            if n < 0 then Rows(lines, from) == []
            else Rows(lines, from) == [Row(lines[n].indent, lines[n].content)] + Rows(lines, n + 1)
                 && Rows(lines, n) == Rows(lines, from)
    decreases |lines| - from
  {
    if from < |lines| && IsBlank(lines[from]) {
      RowsNext(lines, from + 1);
    }
  }

  // The row read next, and what is left after it.
  lemma {:induction false} ReadRow(lines: seq<ParsedLine>, from: nat, rows: seq<Row>) returns (n: nat)
    requires from <= |lines| && Rows(lines, from) == rows && rows != []
    ensures from <= n < |lines| && NextContent(lines, from) == n
    ensures lines[n].indent == rows[0].indent && lines[n].content == rows[0].content
    ensures Rows(lines, n + 1) == rows[1..] && Rows(lines, n) == rows
  {
    RowsNext(lines, from);
    n := NextContent(lines, from);
  }

  lemma {:induction false} NoRows(lines: seq<ParsedLine>, from: nat)
    requires from <= |lines| && Rows(lines, from) == []
    ensures NextContent(lines, from) == -1
    ensures EndsWithContent(lines) ==> from == |lines|
  {
    RowsNext(lines, from);
    if EndsWithContent(lines) && from < |lines| {
      NextExists(lines, from);
    }
  }

  // ----- One row -----

  lemma {:induction false} ScalarRow(key: string, scalar: Scalar)
    requires IsKey(key) && SafeText(Text(scalar))
    ensures SplitKeyValue(key + ":" + " " + Text(scalar)) == Pair(key, Text(scalar))
    ensures !IsItem(key + ":" + " " + Text(scalar))
  {
    hide Find, Scan, Trim;
    var text := Text(scalar);
    assert key + ":" + " " + text == key + ":" + (" " + text);
    SplitAtDelimiter(key, " " + text);
    TrimStartSkips(" ", text);
    TrimKeepsTrimmed(text);
    KeyIsNoItem(key, " " + text);
  }

  lemma {:induction false} KeyIsNoItem(key: string, rest: string)
    requires IsKey(key)
    ensures !IsItem(key + ":" + rest)
  {
    hide Find, Scan;
    var content := key + ":" + rest;
    assert content[0] == key[0];
    assert content[1] == if |key| > 1 then key[1] else ':';
  }

  lemma {:induction false} BareKeyRow(key: string)
    requires IsKey(key)
    ensures SplitKeyValue(key + ":" + "") == Pair(key, "") && !IsItem(key + ":" + "")
  {
    hide Find, Scan, Trim;
    SplitAtDelimiter(key, "");
    KeyIsNoItem(key, "");
    TrimKeepsTrimmed("");
  }

  lemma {:induction false} BareItem(scalar: Scalar, json: Json)
    requires ScalarFits(scalar)
    ensures IsItem("- " + Text(scalar))
    ensures ParseItem(ItemText("- " + Text(scalar)), json) == Ok(Denoted(scalar))
  {
    hide Find, ParseScalar, ScalarFits;
    var text := Text(scalar);
    ScalarTextParses(scalar, json);
    assert ("- " + text)[2..] == text;
    TrimKeepsTrimmed(text);
  }

  lemma {:induction false} KeyedText(key: string, text: string)
    requires IsKey(key) && IsTrimmed(text) && text != []
    ensures IsTrimmed(key + ":" + " " + text) && Find(Outside, key + ":" + " " + text, ':') == |key|
  {
    hide Scan, Find;
    var all := key + ":" + " " + text;
    assert all == key + (": " + text);
    FindAppend(Outside, key, ": " + text, ':');
    FindColon(": " + text);
    assert all[0] == key[0] && all[|all| - 1] == text[|text| - 1];
  }

  lemma FindColon(s: string)
    requires s != [] && s[0] == ':'
    ensures Find(Outside, s, ':') == 0
  {
  }

  lemma {:induction false} KeyedItem(key: string, scalar: Scalar, json: Json)
    requires IsKey(key) && ScalarFits(scalar)
    ensures var text := key + ":" + " " + Text(scalar);
            IsItem("- " + text) && ParseItem(ItemText("- " + text), json) == Ok(ItemValue(Keyed(key, scalar)))
  {
    hide Find, ParseScalar, ScalarFits, SplitKeyValue, IsTrimmed, Trim, TrimStart;
    var text := key + ":" + " " + Text(scalar);
    ScalarTextParses(scalar, json);
    ScalarRow(key, scalar);
    TextIsTrimmed(Text(scalar));
    KeyedText(key, Text(scalar));
    assert ("- " + text)[2..] == text;
    TrimKeepsTrimmed(text);
    assert key != [] && Assign(EMPTY, key, Denoted(scalar)) == Properties(map[key := Denoted(scalar)], true);
  }

  lemma TextIsTrimmed(text: string)
    requires SafeText(text)
    ensures IsTrimmed(text) && text != []
  {
  }

  lemma {:induction false} ItemRow(item: ListItem, json: Json)
    requires ItemFits(item)
    ensures IsItem("- " + TextOf(item))
    ensures ParseItem(ItemText("- " + TextOf(item)), json) == Ok(ItemValue(item))
  {
    hide IsItem, ItemText, ParseItem, IsKey, ScalarFits;
    match item
    case Bare(scalar) => BareItem(scalar, json);
    case Keyed(key, scalar) => KeyedItem(key, scalar, json);
  }

  // ----- Blocks -----

  // What follows a block belongs further out.
  predicate Outer(follow: seq<Row>, indent: nat) {
    follow == [] || follow[0].indent < indent
  }

  lemma {:induction false} ItemsParse(
    lines: seq<ParsedLine>, from: nat, indent: nat, items: seq<ListItem>, values: seq<Value>, follow: seq<Row>, json: Json
  ) returns (next: nat)
    requires EndsWithContent(lines) && from <= |lines|
    requires Rows(lines, from) == PrintItems(items, indent) + follow && Outer(follow, indent)
    requires forall item <- items :: ItemFits(item)
    ensures ParseSequence(lines, from, indent, values, json) == Parsed(Sequence(values + DenotedAll(items)), next)
    ensures from <= next <= |lines| && Rows(lines, next) == follow
    decreases items
  {
    hide ParseItem, ItemText, NextContent, ItemFits, IsItem, Rows, EndsWithContent, TextOf;
    if items == [] {
      assert values + DenotedAll(items) == values;
      next := ItemsEnd(lines, from, indent, values, follow, json);
    } else {
      var rest := PrintItems(items[1..], indent) + follow;
      assert PrintItems(items, indent) + follow == [Row(indent, "- " + TextOf(items[0]))] + rest;
      var n := ReadRow(lines, from, [Row(indent, "- " + TextOf(items[0]))] + rest);
      ItemRow(items[0], json);
      ItemStep(lines, from, n, indent, items[0], values, json);
      next := ItemsParse(lines, n + 1, indent, items[1..], values + [ItemValue(items[0])], follow, json);
      assert values + DenotedAll(items) == values + [ItemValue(items[0])] + DenotedAll(items[1..]);
    }
  }

  // A sequence ends where a row further out, or no row, follows.
  lemma {:induction false} ItemsEnd(
    lines: seq<ParsedLine>, from: nat, indent: nat, values: seq<Value>, follow: seq<Row>, json: Json
  ) returns (next: nat)
    requires EndsWithContent(lines) && from <= |lines|
    requires Rows(lines, from) == follow && Outer(follow, indent)
    ensures ParseSequence(lines, from, indent, values, json) == Parsed(Sequence(values), next)
    ensures from <= next <= |lines| && Rows(lines, next) == follow
  {
    hide ParseItem, ItemText, NextContent, IsItem, Rows, EndsWithContent;
    if follow == [] {
      NoRows(lines, from);
      next := from;
    } else {
      next := ReadRow(lines, from, follow);
    }
  }

  // One round of the sequence loop.
  lemma {:induction false} ItemStep(
    lines: seq<ParsedLine>, from: nat, n: nat, indent: nat, item: ListItem, values: seq<Value>, json: Json
  )
    requires from <= n < |lines| && NextContent(lines, from) == n && ItemFits(item)
    requires lines[n].indent == indent && lines[n].content == "- " + TextOf(item)
    ensures ParseSequence(lines, from, indent, values, json)
         == ParseSequence(lines, n + 1, indent, values + [ItemValue(item)], json)
  {
    hide ParseItem, ItemText, NextContent, ItemFits, IsItem, TextOf, ItemValue;
    ItemRow(item, json);
  }

  // The value of one entry, whatever its kind.
  lemma {:induction false} EntryParses(
    lines: seq<ParsedLine>, n: nat, indent: nat, e: Entry, follow: seq<Row>, json: Json, fuel: nat
  ) returns (next: nat)
    requires EndsWithContent(lines) && n < |lines| && fuel >= |lines| - n
    requires IsKey(e.key) && TreeFits(e.tree)
    requires Rows(lines, n + 1) == PrintEntry(e, indent)[1..] + follow && Outer(follow, indent + 1)
    ensures var part := if e.tree.Leaf? then Text(e.tree.scalar) else "";
            ParseEntry(lines, n, indent, part, json, fuel) == Parsed(ValueOf(e.tree), next)
    ensures n < next <= |lines| && Rows(lines, next) == follow
    decreases fuel, 2
  {
    hide NextContent, Rows, EndsWithContent, ParseScalar, ParseMapping, ParseSequence, IsItem, IsKey, ScalarFits;
    hide DenotedAll;
    match e.tree
    case Leaf(scalar) =>
      assert PrintEntry(e, indent)[1..] + follow == follow;
      ScalarTextParses(scalar, json);
      next := n + 1;
    case Items(items) =>
      assert PrintEntry(e, indent)[1..] == PrintItems(items, indent + 2);
      var nested := ReadRow(lines, n + 1, PrintItems(items, indent + 2) + follow);
      ItemRow(items[0], json);
      next := ItemsParse(lines, nested, indent + 2, items, [], follow, json);
      assert [] + DenotedAll(items) == DenotedAll(items);
    case Node(entries) =>
      assert PrintEntry(e, indent)[1..] == PrintEntries(entries, indent + 2);
      next := NodeParses(lines, n, indent, entries, follow, json, fuel);
  }

  // A key alone on its line: the block below, or an empty mapping.
  lemma {:induction false} NodeParses(
    lines: seq<ParsedLine>, n: nat, indent: nat, entries: seq<Entry>, follow: seq<Row>, json: Json, fuel: nat
  ) returns (next: nat)
    requires EndsWithContent(lines) && n < |lines| && fuel >= |lines| - n
    requires EntriesFit(entries)
    requires Rows(lines, n + 1) == PrintEntries(entries, indent + 2) + follow && Outer(follow, indent + 1)
    ensures ParseEntry(lines, n, indent, "", json, fuel) == Parsed(Mapping(Properties(AddAll(map[], entries), true)), next)
    ensures n < next <= |lines| && Rows(lines, next) == follow
    decreases fuel, 1
  {
    hide NextContent, Rows, EndsWithContent, ParseScalar, ParseMapping, ParseSequence, IsItem, IsKey, EntriesFit;
    var rows := PrintEntries(entries, indent + 2) + follow;
    if entries == [] {
      assert rows == follow;
      next := n + 1;
      if follow == [] {
        NoRows(lines, n + 1);
      } else {
        var below := ReadRow(lines, n + 1, rows);
      }
    } else {
      var nested := ReadRow(lines, n + 1, rows);
      FirstRowIsKey(entries, indent + 2);
      next := EntriesParse(lines, nested, indent + 2, entries, map[], follow, json, fuel);
    }
  }

  lemma {:induction false} FirstRowIsKey(entries: seq<Entry>, indent: nat)
    requires entries != [] && EntriesFit(entries)
    ensures !IsItem(PrintEntries(entries, indent)[0].content)
  {
    hide IsItem, IsKey;
    var e := entries[0];
    assert PrintEntries(entries, indent)[0] == PrintEntry(e, indent)[0];
    match e.tree
    case Leaf(scalar) =>
      KeyIsNoItem(e.key, " " + Text(scalar));
      assert e.key + ":" + " " + Text(scalar) == e.key + ":" + (" " + Text(scalar));
    case _ => KeyIsNoItem(e.key, "");
  }

  lemma {:induction false} EntriesParse(
    lines: seq<ParsedLine>, from: nat, indent: nat, entries: seq<Entry>, acc: map<string, Value>, follow: seq<Row>,
    json: Json, fuel: nat
  ) returns (next: nat)
    requires EndsWithContent(lines) && from <= |lines| && fuel > |lines| - from
    requires EntriesFit(entries) && forall e <- entries :: e.key !in acc
    requires Rows(lines, from) == PrintEntries(entries, indent) + follow && Outer(follow, indent)
    ensures ParseMapping(lines, from, indent, Properties(acc, true), json, fuel)
         == Parsed(Mapping(Properties(AddAll(acc, entries), true)), next)
    ensures from <= next <= |lines| && Rows(lines, next) == follow
    decreases fuel, 0
  {
    hide NextContent, Rows, EndsWithContent, ParseMapping, ParseEntry, ValueOf, TreeFits, IsKey, PrintEntry, Assign;
    if entries == [] {
      assert PrintEntries(entries, indent) + follow == follow;
      next := BlockEnds(lines, from, indent, acc, follow, json, fuel);
    } else {
      var e, tail := entries[0], entries[1..];
      var rest := PrintEntries(tail, indent) + follow;
      var rows := PrintEntries(entries, indent) + follow;
      assert rows == PrintEntry(e, indent) + rest;
      var n := ReadRow(lines, from, rows);
      assert rows[1..] == PrintEntry(e, indent)[1..] + rest;
      var mid := EntryParses(lines, n, indent, e, rest, json, fuel - 1);
      MappingStep(lines, from, n, indent, acc, e, mid, json, fuel);
      TailFits(entries, acc, ValueOf(e.tree));
      next := EntriesParse(lines, mid, indent, tail, acc[e.key := ValueOf(e.tree)], follow, json, fuel - 1);
    }
  }

  // A mapping ends where a row further out, or no row, follows.
  lemma {:induction false} BlockEnds(
    lines: seq<ParsedLine>, from: nat, indent: nat, acc: map<string, Value>, follow: seq<Row>, json: Json, fuel: nat
  ) returns (next: nat)
    requires EndsWithContent(lines) && from <= |lines| && fuel > 0
    requires Rows(lines, from) == follow && Outer(follow, indent)
    ensures ParseMapping(lines, from, indent, Properties(acc, true), json, fuel)
         == Parsed(Mapping(Properties(acc, true)), next)
    ensures from <= next <= |lines| && Rows(lines, next) == follow
  {
    hide NextContent, Rows, EndsWithContent, ParseEntry, IsItem, SplitKeyValue;
    if follow == [] {
      NoRows(lines, from);
      next := from;
    } else {
      next := ReadRow(lines, from, follow);
    }
  }

  // One round of the mapping loop.
  lemma {:induction false} MappingStep(
    lines: seq<ParsedLine>, from: nat, n: nat, indent: nat, acc: map<string, Value>, e: Entry, mid: nat, json: Json,
    fuel: nat
  )
    requires from <= n < |lines| && NextContent(lines, from) == n && fuel > 0
    requires IsKey(e.key) && TreeFits(e.tree) && e.key !in acc
    requires lines[n].indent == indent && lines[n].content == PrintEntry(e, indent)[0].content
    requires var part := if e.tree.Leaf? then Text(e.tree.scalar) else "";
             ParseEntry(lines, n, indent, part, json, fuel - 1) == Parsed(ValueOf(e.tree), mid)
    ensures ParseMapping(lines, from, indent, Properties(acc, true), json, fuel)
         == ParseMapping(lines, mid, indent, Properties(acc[e.key := ValueOf(e.tree)], true), json, fuel - 1)
  {
    hide NextContent, ParseEntry, IsItem, SplitKeyValue, ValueOf, TreeFits, PrintEntry, Find, Scan, IsTrimmed, OneLine;
    EntrySplits(e, indent);
  }

  lemma {:induction false} TailFits(entries: seq<Entry>, acc: map<string, Value>, v: Value)
    requires entries != [] && EntriesFit(entries) && forall e <- entries :: e.key !in acc
    ensures EntriesFit(entries[1..]) && forall e <- entries[1..] :: e.key !in acc[entries[0].key := v]
  {
    hide IsKey, TreeFits;
    var tail := entries[1..];
    forall e | e in tail
      ensures e.key != entries[0].key && e in entries
    {
      var i :| 0 <= i < |tail| && tail[i] == e;
      assert entries[i + 1] == e;
    }
  }

  lemma {:induction false} EntrySplits(e: Entry, indent: nat)
    requires IsKey(e.key) && TreeFits(e.tree)
    ensures var content := PrintEntry(e, indent)[0].content;
            var part := if e.tree.Leaf? then Text(e.tree.scalar) else "";
            !IsItem(content) && SplitKeyValue(content) == Pair(e.key, part)
  {
    hide IsKey, SplitKeyValue, IsItem, ScalarFits, PrintItems, PrintEntries, SafeText;
    match e.tree
    case Leaf(scalar) =>
      ScalarTextParses(scalar, _ => None);
      ScalarRow(e.key, scalar);
    case _ => BareKeyRow(e.key);
  }

  /** The lines of a printed tree, blank lines between them but none at the end. */
  lemma {:induction false} PrintedLinesParse(
    lines: seq<ParsedLine>, entries: seq<Entry>, indent: nat, json: Json, fuel: nat
  )
    requires EndsWithContent(lines) && fuel > |lines|
    requires EntriesFit(entries) && Rows(lines, 0) == PrintEntries(entries, indent)
    ensures ParseLines(lines, json, fuel) == Parsed(ValueOf(Node(entries)), |lines|)
  {
    hide NextContent, Rows, EndsWithContent, ParseMapping, ParseSequence, IsItem, EntriesFit;
    SomeRow(lines);
    var start := ReadRow(lines, 0, PrintEntries(entries, indent));
    FirstRowIsKey(entries, indent);
    assert PrintEntries(entries, indent) + [] == PrintEntries(entries, indent);
    var next := EntriesParse(lines, start, indent, entries, map[], [], json, fuel);
    NoRows(lines, next);
  }

  lemma {:induction false} SomeRow(lines: seq<ParsedLine>)
    requires EndsWithContent(lines)
    ensures Rows(lines, 0) != []
  {
    NextExists(lines, 0);
    RowsNext(lines, 0);
  }

  // ----- Source lines -----

  function Spaces(n: nat): (s: string)
    ensures |s| == n && AllSpace(s)
  {
    seq(n, _ => ' ')
  }

  function RowText(row: Row): string {
    Spaces(row.indent) + row.content
  }

  predicate SafeRow(row: Row) {
    && row.indent % 2 == 0 && row.content != [] && IsTrimmed(row.content) && OneLine(row.content)
    && Find(Outside, row.content, '#') < 0
  }

  // White space or a comment.
  predicate Filler(line: string) {
    '\t' !in line && Trim(Strip(line)) == ""
  }

  lemma {:induction false} SpacesScan(n: nat, s: string)
    ensures Find(Outside, Spaces(n) + s, '#') == (var k := Find(Outside, s, '#'); if k < 0 then -1 else n + k)
    ensures LeadingSpaces(Spaces(n) + s) == n + LeadingSpaces(s)
  {
    if n == 0 {
      assert Spaces(n) + s == s;
    } else {
      assert (Spaces(n) + s)[1..] == Spaces(n - 1) + s;
      SpacesScan(n - 1, s);
    }
  }

  lemma {:induction false} RowIsRead(row: Row, number: nat)
    requires SafeRow(row)
    ensures ToLine(RowText(row), number) == Ok(ParsedLine(number, row.indent, row.content))
  {
    hide Find, Trim;
    var text := RowText(row);
    SpacesScan(row.indent, row.content);
    assert row.content[0] != ' ';
    TrimStartSkips(Spaces(row.indent), row.content);
    TrimKeepsTrimmed(row.content);
    assert Trim(text) == row.content by { TrimIsBoth(text); TrimIsBoth(row.content); }
  }

  lemma TrimIsBoth(s: string)
    ensures Trim(s) == TrimEnd(TrimStart(s))
  {
  }

  // The source lines carry these rows in order, with filler anywhere between.
  predicate Spread(sources: seq<string>, rows: seq<Row>)
    decreases |sources|
  {
    if sources == [] then rows == []
    else
      || (Filler(sources[0]) && Spread(sources[1..], rows))
      || (rows != [] && sources[0] == RowText(rows[0]) && Spread(sources[1..], rows[1..]))
  }

  lemma {:induction false} RowsShift(line: ParsedLine, rest: seq<ParsedLine>, from: nat)
    requires from <= |rest|
    ensures Rows([line] + rest, from + 1) == Rows(rest, from)
    decreases |rest| - from
  {
    hide IsBlank;
    var all := [line] + rest;
    assert |all| == |rest| + 1;
    if from < |rest| {
      RowsShift(line, rest, from + 1);
      assert all[from + 1] == rest[from];
    }
  }

  lemma {:induction false} SpreadIsRead(sources: seq<string>, from: nat, rows: seq<Row>)
    requires from <= |sources| && Spread(sources[from..], rows)
    requires forall row <- rows :: SafeRow(row)
    ensures ToLines(sources, from).Ok? && Rows(ToLines(sources, from).value, 0) == rows
    decreases |sources| - from
  {
    hide SafeRow, RowText, ToLine, Filler;
    if from < |sources| {
      assert sources[from..][1..] == sources[from + 1..];
      if Filler(sources[from]) && Spread(sources[from + 1..], rows) {
        SpreadIsRead(sources, from + 1, rows);
        FillerIsBlank(sources[from], from + 1);
        RowsShift(ParsedLine(from + 1, 0, ""), ToLines(sources, from + 1).value, 0);
      } else {
        assert forall row <- rows[1..] :: row in rows;
        SpreadIsRead(sources, from + 1, rows[1..]);
        RowIsRead(rows[0], from + 1);
        assert rows[0].content != [] by { ContentThere(rows[0]); }
        RowsShift(ParsedLine(from + 1, rows[0].indent, rows[0].content), ToLines(sources, from + 1).value, 0);
      }
    }
  }

  lemma ContentThere(row: Row)
    requires SafeRow(row)
    ensures row.content != []
  {
  }

  lemma {:induction false} FillerIsBlank(line: string, number: nat)
    ensures ToLine(line, number).Ok? ==> (IsBlank(ToLine(line, number).value) <==> Filler(line))
    ensures Filler(line) ==> ToLine(line, number) == Ok(ParsedLine(number, 0, ""))
  {
    hide Trim, Strip;
  }

  // ----- Printed rows can be read back -----

  lemma ConcatOneLine(a: string, b: string)
    requires OneLine(a) && OneLine(b)
    ensures OneLine(a + b)
  {
  }

  lemma {:induction false} ScalarRowIsSafe(key: string, scalar: Scalar, indent: nat)
    requires IsKey(key) && SafeText(Text(scalar)) && indent % 2 == 0
    ensures SafeRow(Row(indent, key + ":" + " " + Text(scalar)))
  {
    hide Find, Scan;
    var text := Text(scalar);
    assert key + ":" + " " + text == key + ": " + text;
    ConcatOneLine(key, ": ");
    ConcatOneLine(key + ": ", text);
    assert Find(Outside, ": ", '#') < 0 && Scan(Outside, ": ") == Outside by { ColonScan(); }
    assert Scan(Outside, key) == Outside;
    FindAppend(Outside, key, ": ", '#');
    ScanAppend(Outside, key, ": ");
    FindAppend(Outside, key + ": ", text, '#');
  }

  lemma {:induction false} ColonScan()
    ensures Find(Outside, ": ", '#') < 0 && Scan(Outside, ": ") == Outside
    ensures Find(Outside, ":", '#') < 0
    ensures Find(Outside, "- ", '#') < 0 && Scan(Outside, "- ") == Outside
  {
    assert ": "[1..] == " " && " "[1..] == "" && "- "[1..] == " " && ":"[1..] == "";
  }

  lemma {:induction false} BareRowIsSafe(key: string, indent: nat)
    requires IsKey(key) && indent % 2 == 0
    ensures SafeRow(Row(indent, key + ":" + ""))
  {
    hide Find, Scan;
    assert key + ":" + "" == key + ":";
    ConcatOneLine(key, ":");
    assert Scan(Outside, key) == Outside;
    FindAppend(Outside, key, ":", '#');
    ColonScan();
  }

  lemma {:induction false} ItemRowIsSafe(text: string, indent: nat)
    requires SafeRow(Row(indent, text))
    ensures SafeRow(Row(indent, "- " + text))
  {
    hide Find, Scan;
    ConcatOneLine("- ", text);
    ColonScan();
    FindAppend(Outside, "- ", text, '#');
  }

  lemma {:induction false} BareTextIsSafe(scalar: Scalar, indent: nat)
    requires SafeText(Text(scalar)) && indent % 2 == 0
    ensures SafeRow(Row(indent, Text(scalar)))
  {
  }

  lemma {:induction false} ItemRowsAreSafe(items: seq<ListItem>, indent: nat)
    requires indent % 2 == 0 && forall item <- items :: ItemFits(item)
    ensures forall row <- PrintItems(items, indent) :: SafeRow(row)
  {
    hide SafeRow, ScalarFits, Text, IsKey;
    if items != [] {
      assert ItemFits(items[0]);
      ScalarTextParses(items[0].scalar, _ => None);
      match items[0] {
        case Bare(scalar) => BareTextIsSafe(scalar, indent);
        case Keyed(key, scalar) => ScalarRowIsSafe(key, scalar, indent);
      }
      ItemRowIsSafe(TextOf(items[0]), indent);
      ItemRowsAreSafe(items[1..], indent);
    }
  }

  lemma {:induction false} EntryRowsAreSafe(e: Entry, indent: nat)
    requires indent % 2 == 0 && IsKey(e.key) && TreeFits(e.tree)
    ensures forall row <- PrintEntry(e, indent) :: SafeRow(row)
    decreases e, 0
  {
    hide SafeRow, IsKey, ScalarFits, Text, PrintItems, PrintEntries;
    match e.tree
    case Leaf(scalar) =>
      ScalarTextParses(scalar, _ => None);
      ScalarRowIsSafe(e.key, scalar, indent);
    case Items(items) =>
      BareRowIsSafe(e.key, indent);
      ItemRowsAreSafe(items, indent + 2);
    case Node(entries) =>
      BareRowIsSafe(e.key, indent);
      EntriesRowsAreSafe(entries, indent + 2);
  }

  lemma {:induction false} EntriesRowsAreSafe(entries: seq<Entry>, indent: nat)
    requires indent % 2 == 0 && forall e <- entries :: IsKey(e.key) && TreeFits(e.tree)
    ensures forall row <- PrintEntries(entries, indent) :: SafeRow(row)
    decreases entries, 1
  {
    hide SafeRow, IsKey, TreeFits, PrintEntry;
    if entries != [] {
      EntryRowsAreSafe(entries[0], indent);
      EntriesRowsAreSafe(entries[1..], indent);
    }
  }

  // ----- A text with rows is not white space -----

  lemma {:induction false} TrimmedAway(s: string)
    requires TrimStart(s) == []
    ensures AllSpace(s)
  {
    if s != [] {
      TrimmedAway(s[1..]);
    }
  }

  lemma {:induction false} NormalizedSpace(s: string)
    requires AllSpace(s)
    ensures AllSpace(NormalizeNewlines(s))
    decreases s
  {
    if |s| >= 2 && s[0] == '\r' && s[1] == '\n' {
      NormalizedSpace(s[2..]);
    } else if s != [] {
      NormalizedSpace(s[1..]);
    }
  }

  lemma {:induction false} SpacePieces(s: string)
    requires AllSpace(s)
    ensures forall i | 0 <= i < |SplitLines(s)| :: AllSpace(SplitLines(s)[i])
    decreases s
  {
    if s != [] {
      SpacePieces(s[1..]);
    }
  }

  lemma {:induction false} SpreadHasContent(sources: seq<string>, rows: seq<Row>)
    requires Spread(sources, rows) && rows != [] && SafeRow(rows[0])
    ensures exists i :: 0 <= i < |sources| && !AllSpace(sources[i])
    decreases |sources|
  {
    hide Find, Filler;
    if Filler(sources[0]) && Spread(sources[1..], rows) {
      SpreadHasContent(sources[1..], rows);
      var i :| 0 <= i < |sources[1..]| && !AllSpace(sources[1..][i]);
      assert sources[i + 1] == sources[1..][i];
    } else {
      var text := RowText(rows[0]);
      assert text[rows[0].indent] == rows[0].content[0];
      assert !AllSpace(sources[0]);
    }
  }

  lemma {:induction false} TextIsNotBlank(raw: string, rows: seq<Row>)
    requires Spread(SourceLines(raw), rows) && rows != [] && SafeRow(rows[0])
    ensures Trim(raw) != []
  {
    hide Spread, SafeRow, AllSpace;
    SpreadHasContent(SourceLines(raw), rows);
    if TrimStart(raw) == [] {
      TrimmedAway(raw);
      NormalizedSpace(raw);
      SpacePieces(NormalizeNewlines(raw));
    } else {
      TrimStartDrops(raw);
      TrimEndKeepsFirst(TrimStart(raw));
    }
  }

  lemma {:induction false} TrimEndKeepsFirst(s: string)
    requires s != [] && !IsSpace(s[0])
    ensures TrimEnd(s) != []
  {
    if IsSpace(s[|s| - 1]) {
      TrimEndKeepsFirst(s[..|s| - 1]);
    }
  }

  // ----- Main results -----

  /** A text that carries a printed tree parses exactly when its last line is not
      filler, and then to the tree's value. */
  lemma {:induction false} PrintedTextParses(raw: string, entries: seq<Entry>, json: Json, fuel: nat)
    requires EntriesFit(entries) && entries != [] && Spread(SourceLines(raw), PrintEntries(entries, 0))
    requires !TakenAsJson(raw, json) && fuel > |SourceLines(raw)|
    ensures var sources := SourceLines(raw);
            && (ParseText(raw, json, fuel).Parsed? <==> !Filler(sources[|sources| - 1]))
            && (ParseText(raw, json, fuel).Parsed? ==>
                  ParseText(raw, json, fuel) == Parsed(ValueOf(Node(entries)), |sources|))
  {
    hide ParseLines, TakenAsJson, NormalizeNewlines, SplitLines, Trim, Strip, ToLines, Spread, SafeRow, Filler;
    hide ParseText, ToLine, IsKey, TreeFits;
    var sources, rows := SourceLines(raw), PrintEntries(entries, 0);
    EntriesRowsAreSafe(entries, 0);
    assert sources[0..] == sources;
    SpreadIsRead(sources, 0, rows);
    TextIsNotBlank(raw, rows);
    var lines := ToLines(sources, 0).value;
    LinesAreConverted(sources, 0);
    var last := |sources| - 1;
    assert ToLine(sources[0 + last], 0 + last + 1) == Ok(lines[last]);
    FillerIsBlank(sources[last], last + 1);
    RowsNext(lines, 0);
    if Filler(sources[last]) {
      BlankEndedText(raw, json, fuel);
    } else {
      PrintedLinesParse(lines, entries, 0, json, fuel);
      assert ParseText(raw, json, fuel) == ParseLines(lines, json, fuel) by { LinesDecide(raw, json, fuel); }
    }
  }

  lemma LinesDecide(raw: string, json: Json, fuel: nat)
    requires Trim(raw) != [] && !TakenAsJson(raw, json) && ToLines(SourceLines(raw), 0).Ok?
    ensures ParseText(raw, json, fuel) == ParseLines(ToLines(SourceLines(raw), 0).value, json, fuel)
  {
  }

  // ----- The printed text itself -----

  function Join(lines: seq<string>): string
    requires lines != []
  {
    if |lines| == 1 then lines[0] else lines[0] + "\n" + Join(lines[1..])
  }

  predicate SourceLine(line: string) {
    '\n' !in line && (line == "" || line[|line| - 1] != '\r')
  }

  lemma {:induction false} CharJoins(c: char, tail: string)
    requires c != '\n'
    ensures SplitLines([c] + tail) == [[c] + SplitLines(tail)[0]] + SplitLines(tail)[1..]
  {
    assert ([c] + tail)[1..] == tail;
  }

  lemma {:induction false} FirstLineSplits(line: string, rest: string)
    requires SourceLine(line)
    ensures SourceLines(line + "\n" + rest) == [line] + SourceLines(rest)
  {
    var text := line + "\n" + rest;
    if line == "" {
      assert text == "\n" + rest && text[1..] == rest;
      assert NormalizeNewlines(text) == "\n" + NormalizeNewlines(rest);
      assert ("\n" + NormalizeNewlines(rest))[1..] == NormalizeNewlines(rest);
    } else {
      assert text[1..] == line[1..] + "\n" + rest;
      FirstLineSplits(line[1..], rest);
      var tail := NormalizeNewlines(text[1..]);
      assert !(text[0] == '\r' && text[1] == '\n') by {
        assert text[0] == line[0];
        if |line| > 1 { assert text[1] == line[1] && line[1] in line; }
      }
      assert line[0] != '\n';
      assert NormalizeNewlines(text) == [line[0]] + tail;
      CharJoins(line[0], tail);
      assert [line[0]] + line[1..] == line;
    }
  }

  lemma {:induction false} OneLineStays(line: string)
    requires SourceLine(line)
    ensures SourceLines(line) == [line]
  {
    if line != "" {
      OneLineStays(line[1..]);
      assert line[0] != '\n';
      assert |line| > 1 ==> line[1] in line;
      var tail := NormalizeNewlines(line[1..]);
      assert NormalizeNewlines(line) == [line[0]] + tail;
      CharJoins(line[0], tail);
      assert [line[0]] + line[1..] == line;
    }
  }

  lemma {:induction false} JoinedLinesSplit(lines: seq<string>)
    requires lines != [] && forall line <- lines :: SourceLine(line)
    ensures SourceLines(Join(lines)) == lines
  {
    if |lines| == 1 {
      OneLineStays(lines[0]);
    } else {
      JoinedLinesSplit(lines[1..]);
      FirstLineSplits(lines[0], Join(lines[1..]));
      assert lines == [lines[0]] + lines[1..];
    }
  }

  function Texts(rows: seq<Row>): (r: seq<string>)
    ensures |r| == |rows|
  {
    if rows == [] then [] else [RowText(rows[0])] + Texts(rows[1..])
  }

  lemma {:induction false} TextsSpread(rows: seq<Row>)
    requires forall row <- rows :: SafeRow(row)
    ensures Spread(Texts(rows), rows) && forall line <- Texts(rows) :: SourceLine(line) && !Filler(line)
  {
    if rows != [] {
      TextsSpread(rows[1..]);
      RowIsSourceLine(rows[0]);
    }
  }

  lemma {:induction false} RowIsSourceLine(row: Row)
    requires SafeRow(row)
    ensures SourceLine(RowText(row)) && !Filler(RowText(row))
  {
    hide Find, Trim, Strip;
    var text := RowText(row);
    assert text[|text| - 1] == row.content[|row.content| - 1];
    RowIsRead(row, 1);
    FillerIsBlank(text, 1);
  }

  // The tree's text: its rows joined by newlines, none after the last.
  function Print(entries: seq<Entry>): string
    requires entries != []
  {
    Join(Texts(PrintEntries(entries, 0)))
  }

  /** The text of a tree parses to the tree's value. */
  lemma {:induction false} RoundTrip(entries: seq<Entry>, json: Json, fuel: nat)
    requires EntriesFit(entries) && entries != []
    requires !TakenAsJson(Print(entries), json) && fuel > |PrintEntries(entries, 0)|
    ensures ParseText(Print(entries), json, fuel)
         == Parsed(ValueOf(Node(entries)), |PrintEntries(entries, 0)|)
  {
    hide ParseText, TakenAsJson, SourceLines, Spread, Filler, SourceLine, Texts, IsKey, TreeFits, SafeRow;
    var rows := PrintEntries(entries, 0);
    EntriesRowsAreSafe(entries, 0);
    TextsSpread(rows);
    JoinedLinesSplit(Texts(rows));
    PrintedTextParses(Print(entries), entries, json, fuel);
  }

  /** With a newline after it, the same text never parses. */
  lemma {:induction false} NewlineBreaksRoundTrip(entries: seq<Entry>, json: Json, fuel: nat)
    requires EntriesFit(entries) && entries != []
    requires !TakenAsJson(Print(entries) + "\n", json)
    ensures !ParseText(Print(entries) + "\n", json, fuel).Parsed?
  {
    hide ParseText, TakenAsJson, SourceLines, Spread, SourceLine, Texts, IsKey, TreeFits, SafeRow;
    var rows := PrintEntries(entries, 0);
    EntriesRowsAreSafe(entries, 0);
    TextsSpread(rows);
    var raw, texts := Print(entries) + "\n", Texts(rows) + [""];
    JoinEnds(Texts(rows));
    assert SourceLine("") by { EmptySource(); }
    JoinedLinesSplit(texts);
    SpreadMore(Texts(rows), rows);
    NewlineEndedText(raw, json, fuel);
    TextIsNotBlank(raw, rows);
    SpreadContent(raw, rows);
  }

  lemma EmptySource()
    ensures SourceLine("") && Filler("")
  {
  }

  lemma {:induction false} JoinEnds(lines: seq<string>)
    requires lines != []
    ensures Join(lines + [""]) == Join(lines) + "\n"
  {
    if |lines| > 1 {
      JoinEnds(lines[1..]);
      assert (lines + [""])[1..] == lines[1..] + [""];
    }
  }

  lemma {:induction false} SpreadMore(sources: seq<string>, rows: seq<Row>)
    requires Spread(sources, rows)
    ensures Spread(sources + [""], rows)
    decreases |sources|
  {
    hide Filler, RowText;
    if sources == [] {
      EmptySource();
      assert Spread([""][1..], rows);
    } else {
      assert (sources + [""])[1..] == sources[1..] + [""];
      if Filler(sources[0]) && Spread(sources[1..], rows) {
        SpreadMore(sources[1..], rows);
      } else {
        SpreadMore(sources[1..], rows[1..]);
      }
    }
  }

  lemma {:induction false} SpreadContent(raw: string, rows: seq<Row>)
    requires Spread(SourceLines(raw), rows) && rows != [] && forall row <- rows :: SafeRow(row)
    ensures !NoContent(raw)
  {
    hide Spread, SafeRow, ToLines, SourceLines;
    var sources := SourceLines(raw);
    assert sources[0..] == sources;
    SpreadIsRead(sources, 0, rows);
    RowsNext(ToLines(sources, 0).value, 0);
  }

  // ----- An item among keys -----

  /** A list item that stands at the level of a mapping's keys, after any of them, is
      reported as such. */
  lemma {:induction false} ItemAmongKeys(
    lines: seq<ParsedLine>, from: nat, indent: nat, entries: seq<Entry>, acc: map<string, Value>, follow: seq<Row>,
    json: Json, fuel: nat
  )
    requires EndsWithContent(lines) && from <= |lines| && fuel > |lines| - from
    requires EntriesFit(entries) && forall e <- entries :: e.key !in acc
    requires Rows(lines, from) == PrintEntries(entries, indent) + follow
    requires follow != [] && follow[0].indent == indent && IsItem(follow[0].content)
    ensures var r := ParseMapping(lines, from, indent, Properties(acc, true), json, fuel);
            r.Failed? && r.kind == ItemInMapping
    decreases entries
  {
    hide NextContent, Rows, EndsWithContent, ParseMapping, ParseEntry, ValueOf, TreeFits, IsKey, PrintEntry, Assign, IsItem;
    if entries == [] {
      assert PrintEntries(entries, indent) + follow == follow;
      var n := ReadRow(lines, from, follow);
      ItemFails(lines, from, n, indent, acc, json, fuel);
    } else {
      var e, tail := entries[0], entries[1..];
      var rest := PrintEntries(tail, indent) + follow;
      var rows := PrintEntries(entries, indent) + follow;
      assert rows == PrintEntry(e, indent) + rest;
      var n := ReadRow(lines, from, rows);
      assert rows[1..] == PrintEntry(e, indent)[1..] + rest;
      var mid := EntryParses(lines, n, indent, e, rest, json, fuel - 1);
      MappingStep(lines, from, n, indent, acc, e, mid, json, fuel);
      TailFits(entries, acc, ValueOf(e.tree));
      ItemAmongKeys(lines, mid, indent, tail, acc[e.key := ValueOf(e.tree)], follow, json, fuel - 1);
    }
  }

  lemma ItemFails(
    lines: seq<ParsedLine>, from: nat, n: nat, indent: nat, acc: map<string, Value>, json: Json, fuel: nat
  )
    requires from <= n < |lines| && NextContent(lines, from) == n && fuel > 0
    requires lines[n].indent == indent && IsItem(lines[n].content)
    ensures ParseMapping(lines, from, indent, Properties(acc, true), json, fuel)
         == Failed(ItemInMapping, lines[n].lineNumber)
  {
    hide NextContent, ParseEntry, SplitKeyValue;
  }
}
