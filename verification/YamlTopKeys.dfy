/**
 Which keys a parsed block has, told from the lines alone, and with that when the
 block parser runs for ever.
 */
module YamlTopKeys {

  import opened Objects
  import opened Options
  import opened Strings
  import opened YamlText
  import opened YamlParser
  import opened YamlBlankEnding

  // ----- A block never reaches above its indentation -----

  ghost predicate NotAbove(lines: seq<ParsedLine>, from: int, to: int, indent: nat) {
    forall i | from <= i < to && 0 <= i < |lines| :: !IsBlank(lines[i]) ==> lines[i].indent >= indent
  }

  lemma {:induction false} BlankUpToNext(lines: seq<ParsedLine>, index: int)
    requires -1 <= index
    ensures var n := NextContent(lines, index);
            forall i | index <= i && 0 <= i < |lines| && (n < 0 || i < n) :: IsBlank(lines[i])
    decreases |lines| - index
  {
    if index < |lines| && (index < 0 || IsBlank(lines[index])) {
      BlankUpToNext(lines, index + 1);
    }
  }

  lemma {:induction false} SequenceStays(
    lines: seq<ParsedLine>, current: nat, indent: nat, values: seq<Value>, json: Json
  )
    ensures var r := ParseSequence(lines, current, indent, values, json);
            r.Parsed? ==> NotAbove(lines, current, r.next, indent)
    decreases |lines| - current
  {
    hide NextContent, ParseItem, ItemText;
    if current < |lines| {
      BlankUpToNext(lines, current);
      var n := NextContent(lines, current);
      if n >= 0 && lines[n].indent == indent && IsItem(lines[n].content) {
        var item := ParseItem(ItemText(lines[n].content), json);
        if item.Ok? {
          SequenceStays(lines, n + 1, indent, values + [item.value], json);
        }
      }
    }
  }

  lemma {:induction false} BlockStays(lines: seq<ParsedLine>, index: nat, indent: nat, json: Json, fuel: nat)
    ensures var r := ParseBlock(lines, index, indent, json, fuel);
            r.Parsed? ==> NotAbove(lines, index, r.next, indent)
    decreases fuel, 1
  {
    hide ParseMapping, ParseSequence, IsItem, NotAbove;
    if index < |lines| && lines[index].indent == indent {
      if IsItem(lines[index].content) {
        SequenceStays(lines, index, indent, [], json);
      } else {
        MappingStays(lines, index, indent, EMPTY, json, fuel);
      }
    }
  }

  lemma {:induction false} EntryStays(
    lines: seq<ParsedLine>, n: nat, indent: nat, part: string, json: Json, fuel: nat
  )
    requires n < |lines|
    ensures var r := ParseEntry(lines, n, indent, part, json, fuel);
            r.Parsed? ==> NotAbove(lines, n + 1, r.next, indent + 1)
    decreases fuel, 2
  {
    hide ParseBlock, ParseScalar, NextContent;
    var nested := NextContent(lines, n + 1);
    BlankUpToNext(lines, n + 1);
    if part == [] && nested >= 0 && lines[nested].indent == indent + 2 {
      BlockStays(lines, nested, indent + 2, json, fuel);
    }
  }

  lemma {:induction false} MappingStays(
    lines: seq<ParsedLine>, current: int, indent: nat, acc: Properties, json: Json, fuel: nat
  )
    requires -1 <= current
    ensures var r := ParseMapping(lines, current, indent, acc, json, fuel);
            r.Parsed? ==> NotAbove(lines, current, r.next, indent)
    decreases fuel, 0
  {
    hide ParseEntry, SplitKeyValue, NextContent, Assign, IsItem;
    if fuel > 0 && current < |lines| {
      BlankUpToNext(lines, current);
      var n := NextContent(lines, current);
      if n >= 0 && lines[n].indent == indent && !IsItem(lines[n].content) {
        match SplitKeyValue(lines[n].content)
        case BadSplit(kind) =>
        case Pair(key, part) =>
          if key !in acc.entries {
            EntryStays(lines, n, indent, part, json, fuel - 1);
            var entry := ParseEntry(lines, n, indent, part, json, fuel - 1);
            if entry.Parsed? {
              MappingStays(lines, entry.next, indent, Assign(acc, key, entry.value), json, fuel - 1);
            }
          }
      }
    }
  }

  // ----- The keys of a block -----

  // A line of the block itself, not of one nested in it.
  predicate OnLevel(lines: seq<ParsedLine>, i: nat, indent: nat) {
    i < |lines| && !IsBlank(lines[i]) && lines[i].indent == indent
  }

  predicate ShowsKey(lines: seq<ParsedLine>, i: nat, indent: nat, key: string) {
    && OnLevel(lines, i, indent)
    && SplitKeyValue(lines[i].content).Pair? && SplitKeyValue(lines[i].content).key == key
  }

  ghost predicate KeyShown(lines: seq<ParsedLine>, from: nat, indent: nat, key: string) {
    exists i :: from <= i < |lines| && ShowsKey(lines, i, indent, key)
  }

  ghost predicate AllShowKeys(lines: seq<ParsedLine>, from: nat, indent: nat) {
    forall i | from <= i < |lines| :: OnLevel(lines, i, indent) ==> SplitKeyValue(lines[i].content).Pair?
  }

  // Between a key line and the end of its entry no line is on the level.
  lemma {:induction false} OnlyNextShows(lines: seq<ParsedLine>, from: nat, n: nat, next: nat, indent: nat)
    requires from <= n < next <= |lines| && OnLevel(lines, n, indent)
    requires forall i | from <= i < n :: IsBlank(lines[i])
    requires NotAbove(lines, n + 1, next, indent + 1) && SplitKeyValue(lines[n].content).Pair?
    ensures AllShowKeys(lines, next, indent) ==> AllShowKeys(lines, from, indent)
    ensures forall key :: KeyShown(lines, from, indent, key) <==>
                          key == SplitKeyValue(lines[n].content).key || KeyShown(lines, next, indent, key)
  {
    hide SplitKeyValue;
    forall i | from <= i < next
      ensures OnLevel(lines, i, indent) <==> i == n
    {
    }
    forall key
      ensures KeyShown(lines, from, indent, key) <==>
              key == SplitKeyValue(lines[n].content).key || KeyShown(lines, next, indent, key)
    {
      if key == SplitKeyValue(lines[n].content).key {
        assert ShowsKey(lines, n, indent, key);
      }
      if i :| from <= i < |lines| && ShowsKey(lines, i, indent, key) {
        assert OnLevel(lines, i, indent);
      }
    }
  }

  lemma {:induction false} MappingKeys(
    lines: seq<ParsedLine>, current: nat, indent: nat, acc: Properties, json: Json, fuel: nat
  )
    requires EndsWithContent(lines) && current <= |lines| && fuel > |lines| - current
    ensures var r := ParseMapping(lines, current, indent, acc, json, fuel);
            r.Parsed? && r.next >= |lines| ==>
              && AllShowKeys(lines, current, indent)
              && (forall key :: key != PROTO ==>
                    (key in r.value.properties.entries <==> key in acc.entries || KeyShown(lines, current, indent, key)))
    decreases fuel
  {
    hide ParseEntry, SplitKeyValue, NextContent, IsItem, NotAbove, KeyShown, AllShowKeys, EndsWithContent, IsBlank, OnLevel;
    var r := ParseMapping(lines, current, indent, acc, json, fuel);
    if current == |lines| {
      NothingShown(lines, indent);
    } else if r.Parsed? && r.next >= |lines| {
      NextExists(lines, current);
      var n := NextContent(lines, current);
      BlankUpToNext(lines, current);
      assert OnLevel(lines, n, indent) by { LevelOf(lines, n, indent); }
      var split := SplitKeyValue(lines[n].content);
      EntryAdvances(lines, n, indent, split.value, json, fuel - 1);
      EntryStays(lines, n, indent, split.value, json, fuel - 1);
      var entry := ParseEntry(lines, n, indent, split.value, json, fuel - 1);
      MappingKeys(lines, entry.next, indent, Assign(acc, split.key, entry.value), json, fuel - 1);
      OnlyNextShows(lines, current, n, entry.next, indent);
    }
  }

  lemma LevelOf(lines: seq<ParsedLine>, n: nat, indent: nat)
    requires n < |lines| && !IsBlank(lines[n]) && lines[n].indent == indent
    ensures OnLevel(lines, n, indent)
  {
  }

  lemma NothingShown(lines: seq<ParsedLine>, indent: nat)
    ensures AllShowKeys(lines, |lines|, indent) && forall key :: !KeyShown(lines, |lines|, indent, key)
  {
  }

  /** The keys of a document that parses to a mapping are those of its lines at the top
      indentation, `__proto__` aside. */
  lemma {:induction false} TopKeysAreThoseOfLines(core: seq<ParsedLine>, json: Json, fuel: nat)
    requires EndsWithContent(core) && fuel > |core| && First(core) >= 0
    requires ParseLines(core, json, fuel).Parsed? && ParseLines(core, json, fuel).value.Mapping?
    ensures var m := ParseLines(core, json, fuel).value.properties.entries;
            forall key :: key != PROTO ==>
              (key in m <==> exists i :: 0 <= i < |core| && ShowsKey(core, i, Top(core), key))
  {
    hide ParseMapping, ParseSequence, SplitKeyValue, IsItem, NextContent, ShowsKey, OnLevel;
    TopIsMapping(core, json, fuel);
    var f := First(core);
    BlankUpToNext(core, 0);
    MappingKeys(core, f, Top(core), EMPTY, json, fuel);
    forall key
      ensures KeyShown(core, f, Top(core), key) <==> exists i :: 0 <= i < |core| && ShowsKey(core, i, Top(core), key)
    {
      if i :| 0 <= i < |core| && ShowsKey(core, i, Top(core), key) {
        assert i >= f by { ShownHasContent(core, i, Top(core), key); }
      }
    }
  }

  lemma {:induction false} TopIsMapping(core: seq<ParsedLine>, json: Json, fuel: nat)
    requires EndsWithContent(core) && fuel > |core| && First(core) >= 0
    requires ParseLines(core, json, fuel).Parsed? && ParseLines(core, json, fuel).value.Mapping?
    ensures ParseMapping(core, First(core), Top(core), EMPTY, json, fuel) == ParseLines(core, json, fuel)
    ensures ParseLines(core, json, fuel).next == |core|
  {
    hide ParseMapping, ParseSequence, IsItem, NextContent;
    ContentEndingStops(core, json, fuel);
    NextExists(core, 0);
    BlockAdvances(core, First(core), Top(core), json, fuel);
  }

  lemma ShownHasContent(lines: seq<ParsedLine>, i: nat, indent: nat, key: string)
    requires ShowsKey(lines, i, indent, key)
    ensures !IsBlank(lines[i])
  {
  }

  // ----- When nothing is left of a pass -----

  // The line gives `__proto__` a value that leaves the setter in reach.
  predicate LeavesNothing(lines: seq<ParsedLine>, i: nat, indent: nat, json: Json) {
    && ShowsKey(lines, i, indent, PROTO)
    && var entry := ParseEntry(lines, i, indent, SplitKeyValue(lines[i].content).value, json, |lines| + 1);
       entry.Parsed? && KeepsSetter(entry.value)
  }

  lemma {:induction false} NothingLeft(lines: seq<ParsedLine>, current: nat, indent: nat, json: Json, fuel: nat)
    requires EndsWithContent(lines) && current <= |lines| && |lines| + 2 >= fuel > |lines| - current
    ensures var r := ParseMapping(lines, current, indent, EMPTY, json, fuel);
            r.Parsed? && r.next >= |lines| ==>
              (r.value == Mapping(EMPTY) <==>
               forall i | current <= i < |lines| && OnLevel(lines, i, indent) :: LeavesNothing(lines, i, indent, json))
    decreases fuel
  {
    hide ParseEntry, SplitKeyValue, NextContent, IsItem, NotAbove, EndsWithContent, IsBlank, OnLevel, LeavesNothing, KeepsSetter;
    var r := ParseMapping(lines, current, indent, EMPTY, json, fuel);
    if current == |lines| {
    } else if r.Parsed? && r.next >= |lines| {
      NextExists(lines, current);
      var n := NextContent(lines, current);
      BlankUpToNext(lines, current);
      var split := SplitKeyValue(lines[n].content);
      EntryAdvances(lines, n, indent, split.value, json, fuel - 1);
      EntryStays(lines, n, indent, split.value, json, fuel - 1);
      var entry := ParseEntry(lines, n, indent, split.value, json, fuel - 1);
      EntryFuel(lines, n, indent, split.value, json, fuel - 1, |lines| + 1);
      KeysGrow(lines, entry.next, indent, Assign(EMPTY, split.key, entry.value), json, fuel - 1);
      LevelOf(lines, n, indent);
      LineLeaves(lines, n, indent, split.key, split.value, entry.value, entry.next, json);
      OnlyNextOnLevel(lines, current, n, entry.next, indent);
      if Assign(EMPTY, split.key, entry.value) == EMPTY {
        NothingLeft(lines, entry.next, indent, json, fuel - 1);
      }
    }
  }

  lemma LineLeaves(
    lines: seq<ParsedLine>, n: nat, indent: nat, key: string, part: string, v: Value, next: int, json: Json
  )
    requires OnLevel(lines, n, indent) && SplitKeyValue(lines[n].content) == Pair(key, part)
    requires ParseEntry(lines, n, indent, part, json, |lines| + 1) == Parsed(v, next)
    ensures Assign(EMPTY, key, v) == EMPTY <==> LeavesNothing(lines, n, indent, json)
    ensures Assign(EMPTY, key, v) != EMPTY ==>
              Assign(EMPTY, key, v).entries != map[] || !Assign(EMPTY, key, v).setter
  {
    hide SplitKeyValue, ParseEntry;
    assert key != PROTO ==> key in Assign(EMPTY, key, v).entries;
  }

  lemma {:induction false} OnlyNextOnLevel(lines: seq<ParsedLine>, from: nat, n: nat, next: nat, indent: nat)
    requires from <= n < next <= |lines| && OnLevel(lines, n, indent)
    requires forall i | from <= i < n :: IsBlank(lines[i])
    requires NotAbove(lines, n + 1, next, indent + 1)
    ensures forall i | from <= i < next :: OnLevel(lines, i, indent) <==> i == n
  {
  }

  /** When the parser runs for ever on lines with a blank ending: exactly when the lines
      parse without it, end deeper than they begin, and do nothing at the top but give
      `__proto__` values that leave its setter in reach. */
  lemma {:induction false} EndlessExactly(core: seq<ParsedLine>, blanks: seq<ParsedLine>, json: Json)
    requires BlankEnded(core, blanks)
    ensures First(core) >= 0
    ensures (forall fuel: nat :: ParseLines(core + blanks, json, fuel).OutOfFuel?) <==>
            && LastIndent(core) != Top(core) && ParseLines(core, json, 3 * |core| + 2).Parsed?
            && forall i | 0 <= i < |core| && OnLevel(core, i, Top(core)) :: LeavesNothing(core, i, Top(core), json)
  {
    hide ParseLines, OnLevel, LeavesNothing, ParseMapping;
    var enough := 3 * |core| + 2;
    FirstInside(core);
    BlankEndingNeverParses(core, blanks, json);
    BlankEnding(core, blanks, json, enough);
    ContentEndingStops(core, json, enough);
    var short := ParseLines(core, json, enough);
    if short.Parsed? && LastIndent(core) != Top(core) {
      TopIsMapping(core, json, enough);
      EnoughFuel(core, EMPTY, json, enough, |core| + 1);
      NothingLeft(core, First(core), Top(core), json, |core| + 1);
      BlankUpToNext(core, 0);
      forall i | 0 <= i < |core| && OnLevel(core, i, Top(core))
        ensures i >= First(core)
      {
        LevelHasContent(core, i, Top(core));
      }
    }
  }

  lemma LevelHasContent(lines: seq<ParsedLine>, i: nat, indent: nat)
    requires OnLevel(lines, i, indent)
    ensures !IsBlank(lines[i])
  {
  }

  // `__proto__:` over an indented `__proto__: ~`: the nested object has no prototype,
  // so the outer one loses the setter, and the key that it then gets is met again.
  const NO_SETTER := [ParsedLine(1, 0, "__proto__:"), ParsedLine(2, 2, "__proto__: ~")]

  lemma {:induction false} NullSplits(json: Json)
    ensures SplitKeyValue("__proto__: ~") == Pair("__proto__", "~") && !IsItem("__proto__: ~")
    ensures ParseScalar("~", json) == Some(Null)
  {
    hide Find, Scan, TrimStart, NumberText;
    assert "__proto__: ~"[0] == '_';
    PlainText("__proto__");
    SplitAtDelimiter("__proto__", " ~");
    assert "__proto__" + ":" + " ~" == "__proto__: ~";
    assert TrimStart(" ~") == "~" by { TrimStartSkips(" ", "~"); TrimKeepsTrimmed("~"); assert " " + "~" == " ~"; }
    assert Lower("~") == "~";
  }

  lemma {:induction false} LostSetterStops(json: Json)
    ensures IsDuplicate(ParseLines(NO_SETTER + [ParsedLine(3, 0, "")], json, 8), {PROTO})
  {
    hide SplitKeyValue, ParseScalar, IsItem;
    var core := NO_SETTER;
    OuterSplits();
    NullSplits(json);
    var bare := Properties(map[], false);
    assert NextContent(core, 0) == 0 && NextContent(core, 1) == 1;
    assert ParseEntry(core, 1, 2, "~", json, 6) == Parsed(Null, 2);
    assert Assign(EMPTY, PROTO, Null) == bare;
    var inner := ParseBlock(core, 1, 2, json, 7);
    assert inner == Parsed(Mapping(bare), 2);
    assert ParseEntry(core, 0, 0, "", json, 7) == inner;
    assert Assign(EMPTY, PROTO, inner.value) == bare;
    assert ParseMapping(core, 2, 0, bare, json, 7) == Parsed(Mapping(bare), 2);
    assert ParseMapping(core, 0, 0, EMPTY, json, 8) == Parsed(Mapping(bare), 2);
    BlankEnding(core, [ParsedLine(3, 0, "")], json, 8);
    assert bare.entries.Keys + {PROTO} == {PROTO};
  }
}
