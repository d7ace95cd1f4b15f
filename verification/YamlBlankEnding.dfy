/**
 What a blank last line does to the block parser. With content on the last line
 the parser always stops. With blank lines at the end it never succeeds: it
 reports trailing content, or a duplicate key, or it runs for ever, and which of
 the three is decided by the same lines without the blank ending.
 */
module YamlBlankEnding {

  import opened Objects
  import opened Options
  import opened Strings
  import opened YamlText
  import opened YamlParser

  ghost predicate EndsWithContent(lines: seq<ParsedLine>) {
    lines != [] && !IsBlank(lines[|lines| - 1])
  }

  ghost predicate AllBlank(lines: seq<ParsedLine>) {
    forall l <- lines :: IsBlank(l)
  }

  // ----- Fuel does not matter once there is enough of it -----

  lemma {:induction false} BlockFuel(lines: seq<ParsedLine>, index: nat, indent: nat, json: Json, fuel: nat, more: nat)
    requires fuel <= more && !ParseBlock(lines, index, indent, json, fuel).OutOfFuel?
    ensures ParseBlock(lines, index, indent, json, more) == ParseBlock(lines, index, indent, json, fuel)
    decreases fuel, 1
  {
    hide ParseMapping, ParseSequence;
    if index < |lines| && lines[index].indent == indent && !IsItem(lines[index].content) {
      MappingFuel(lines, index, indent, EMPTY, json, fuel, more);
    }
  }

  lemma {:induction false} EntryFuel(
    lines: seq<ParsedLine>, n: nat, indent: nat, part: string, json: Json, fuel: nat, more: nat
  )
    requires n < |lines| && fuel <= more && !ParseEntry(lines, n, indent, part, json, fuel).OutOfFuel?
    ensures ParseEntry(lines, n, indent, part, json, more) == ParseEntry(lines, n, indent, part, json, fuel)
    decreases fuel, 2
  {
    hide ParseBlock, ParseScalar, NextContent;
    var nested := NextContent(lines, n + 1);
    if part == [] && nested >= 0 && lines[nested].indent == indent + 2 {
      BlockFuel(lines, nested, indent + 2, json, fuel, more);
    }
  }

  lemma {:induction false} MappingFuel(
    lines: seq<ParsedLine>, current: int, indent: nat, acc: Properties, json: Json, fuel: nat, more: nat
  )
    requires -1 <= current && fuel <= more
    requires !ParseMapping(lines, current, indent, acc, json, fuel).OutOfFuel?
    ensures ParseMapping(lines, current, indent, acc, json, more)
         == ParseMapping(lines, current, indent, acc, json, fuel)
    decreases fuel, 0
  {
    hide ParseEntry, SplitKeyValue, NextContent, Assign, IsItem;
    if current < |lines| {
      var n := NextContent(lines, current);
      if n >= 0 && lines[n].indent == indent && !IsItem(lines[n].content) {
        match SplitKeyValue(lines[n].content)
        case BadSplit(kind) =>
        case Pair(key, part) =>
          if key !in acc.entries {
            EntryFuel(lines, n, indent, part, json, fuel - 1, more - 1);
            var entry := ParseEntry(lines, n, indent, part, json, fuel - 1);
            if entry.Parsed? {
              MappingFuel(lines, entry.next, indent, Assign(acc, key, entry.value), json, fuel - 1, more - 1);
            }
          }
      }
    }
  }

  lemma {:induction false} LinesFuel(lines: seq<ParsedLine>, json: Json, fuel: nat, more: nat)
    requires fuel <= more && !ParseLines(lines, json, fuel).OutOfFuel?
    ensures ParseLines(lines, json, more) == ParseLines(lines, json, fuel)
  {
    hide ParseBlock, NextContent;
    var start := NextContent(lines, 0);
    if start >= 0 {
      BlockFuel(lines, start, lines[start].indent, json, fuel, more);
    }
  }

  // ----- Content on the last line: the parser moves forward and stops -----

  lemma {:induction false} NextExists(lines: seq<ParsedLine>, index: nat)
    requires EndsWithContent(lines) && index < |lines|
    ensures index <= NextContent(lines, index)
    decreases |lines| - index
  {
    if IsBlank(lines[index]) {
      NextExists(lines, index + 1);
    }
  }

  // How far a block got, and how deep the last line was if it reached the end.
  ghost predicate Advanced(lines: seq<ParsedLine>, from: nat, indent: nat, r: Outcome) {
    && !r.OutOfFuel?
    && (r.Parsed? ==> from <= r.next <= |lines|)
    && (r.Parsed? && r.next == |lines| && from < |lines| ==> lines[|lines| - 1].indent >= indent)
  }

  lemma {:induction false} SequenceAdvances(
    lines: seq<ParsedLine>, current: nat, indent: nat, values: seq<Value>, json: Json
  )
    requires EndsWithContent(lines) && current <= |lines|
    ensures var r := ParseSequence(lines, current, indent, values, json);
            Advanced(lines, current, indent, r)
            && (r.Parsed? && r.next == |lines| && current < |lines| ==> lines[|lines| - 1].indent == indent)
    decreases |lines| - current
  {
    hide NextContent, ParseItem, ItemText;
    if current < |lines| {
      NextExists(lines, current);
      var n := NextContent(lines, current);
      if lines[n].indent == indent && IsItem(lines[n].content) {
        var item := ParseItem(ItemText(lines[n].content), json);
        if item.Ok? {
          SequenceAdvances(lines, n + 1, indent, values + [item.value], json);
        }
      }
    }
  }

  lemma {:induction false} BlockAdvances(lines: seq<ParsedLine>, index: nat, indent: nat, json: Json, fuel: nat)
    requires EndsWithContent(lines) && index <= |lines| && fuel > |lines| - index
    ensures Advanced(lines, index, indent, ParseBlock(lines, index, indent, json, fuel))
    decreases fuel, 1
  {
    hide ParseMapping, ParseSequence, IsItem;
    if index < |lines| && lines[index].indent == indent {
      if IsItem(lines[index].content) {
        SequenceAdvances(lines, index, indent, [], json);
      } else {
        MappingAdvances(lines, index, indent, EMPTY, json, fuel);
      }
    }
  }

  lemma {:induction false} EntryAdvances(
    lines: seq<ParsedLine>, n: nat, indent: nat, part: string, json: Json, fuel: nat
  )
    requires EndsWithContent(lines) && n < |lines| && fuel >= |lines| - n && lines[n].indent == indent
    ensures Advanced(lines, n + 1, indent + 2, ParseEntry(lines, n, indent, part, json, fuel))
    decreases fuel, 2
  {
    hide ParseBlock, ParseScalar, NextContent;
    var nested := NextContent(lines, n + 1);
    if n + 1 < |lines| {
      NextExists(lines, n + 1);
    }
    if part == [] && nested >= 0 && lines[nested].indent == indent + 2 {
      BlockAdvances(lines, nested, indent + 2, json, fuel);
    }
  }

  lemma {:induction false} MappingAdvances(
    lines: seq<ParsedLine>, current: nat, indent: nat, acc: Properties, json: Json, fuel: nat
  )
    requires EndsWithContent(lines) && current <= |lines| && fuel > |lines| - current
    ensures Advanced(lines, current, indent, ParseMapping(lines, current, indent, acc, json, fuel))
    decreases fuel, 0
  {
    hide ParseEntry, SplitKeyValue, NextContent, Assign, IsItem;
    if current < |lines| {
      NextExists(lines, current);
      var n := NextContent(lines, current);
      if lines[n].indent == indent && !IsItem(lines[n].content) {
        match SplitKeyValue(lines[n].content)
        case BadSplit(kind) =>
        case Pair(key, part) =>
          if key !in acc.entries {
            EntryAdvances(lines, n, indent, part, json, fuel - 1);
            var entry := ParseEntry(lines, n, indent, part, json, fuel - 1);
            if entry.Parsed? {
              MappingAdvances(lines, entry.next, indent, Assign(acc, key, entry.value), json, fuel - 1);
            }
          }
      }
    }
  }

  // ----- The same lines followed by blank ones -----

  ghost predicate BlankEnded(core: seq<ParsedLine>, blanks: seq<ParsedLine>) {
    EndsWithContent(core) && blanks != [] && AllBlank(blanks)
  }

  lemma {:induction false} NoContentIn(lines: seq<ParsedLine>, index: nat)
    requires forall i | index <= i < |lines| :: IsBlank(lines[i])
    ensures NextContent(lines, index) == -1
    decreases |lines| - index
  {
    if index < |lines| {
      NoContentIn(lines, index + 1);
    }
  }

  lemma {:induction false} SameNext(core: seq<ParsedLine>, blanks: seq<ParsedLine>, index: nat)
    requires BlankEnded(core, blanks) && index <= |core|
    ensures NextContent(core + blanks, index) == NextContent(core, index)
    decreases |core| - index
  {
    var full := core + blanks;
    if index == |core| {
      forall i | index <= i < |full| ensures IsBlank(full[i]) {
        assert full[i] == blanks[i - |core|];
      }
      NoContentIn(full, index);
    } else if IsBlank(core[index]) {
      SameNext(core, blanks, index + 1);
    }
  }

  // The line every restart comes back to.
  function First(core: seq<ParsedLine>): (f: int)
  {
    NextContent(core, 0)
  }

  lemma {:induction false} FirstInside(core: seq<ParsedLine>)
    requires EndsWithContent(core)
    ensures 0 <= First(core) < |core|
  {
    NextExists(core, 0);
  }

  lemma {:induction false} RestartsAtFirst(core: seq<ParsedLine>, blanks: seq<ParsedLine>, c: int)
    requires BlankEnded(core, blanks) && (c == -1 || c == First(core))
    ensures First(core) >= 0 && NextContent(core + blanks, c) == First(core)
  {
    NextExists(core, 0);
    SameNext(core, blanks, 0);
    assert NextContent(core + blanks, -1) == NextContent(core + blanks, 0);
    assert (core + blanks)[First(core)] == core[First(core)];
  }

  // A block below the top: the same value; at the end of the lines a restart.
  ghost predicate Agree(core: seq<ParsedLine>, short: Outcome, long: Outcome) {
    && (!short.Parsed? ==> long == short)
    && (short.Parsed? && short.next < |core| ==> long == short)
    && (short.Parsed? && short.next >= |core| ==>
          long.Parsed? && long.value == short.value && (long.next == -1 || long.next == First(core)))
  }

  lemma {:induction false} SequenceAgrees(
    core: seq<ParsedLine>, blanks: seq<ParsedLine>, current: nat, indent: nat, values: seq<Value>, json: Json
  )
    requires BlankEnded(core, blanks) && current <= |core|
    ensures var short := ParseSequence(core, current, indent, values, json);
            var long := ParseSequence(core + blanks, current, indent, values, json);
            && Agree(core, short, long)
            && (short.Parsed? && short.next >= |core| ==> long.next == -1)
    decreases |core| - current
  {
    hide NextContent, ParseItem, ItemText;
    SameNext(core, blanks, current);
    if current < |core| {
      NextExists(core, current);
      var n := NextContent(core, current);
      assert (core + blanks)[n] == core[n];
      if core[n].indent == indent && IsItem(core[n].content) {
        var item := ParseItem(ItemText(core[n].content), json);
        if item.Ok? {
          SequenceAgrees(core, blanks, n + 1, indent, values + [item.value], json);
        }
      }
    } else {
      NextPast(core, current);
    }
  }

  lemma NextPast(lines: seq<ParsedLine>, index: nat)
    requires index >= |lines|
    ensures NextContent(lines, index) == -1
  {
  }

  ghost predicate BelowTop(core: seq<ParsedLine>, indent: nat)
    requires EndsWithContent(core)
  {
    First(core) >= 0 && indent > core[First(core)].indent
  }

  lemma {:induction false} BlockAgrees(
    core: seq<ParsedLine>, blanks: seq<ParsedLine>, index: nat, indent: nat, json: Json, fuel: nat
  )
    requires BlankEnded(core, blanks) && index < |core| && fuel > |core| - index && BelowTop(core, indent)
    ensures Agree(core, ParseBlock(core, index, indent, json, fuel), ParseBlock(core + blanks, index, indent, json, fuel))
    decreases fuel, 1
  {
    hide ParseMapping, ParseSequence, IsItem, NextContent;
    assert (core + blanks)[index] == core[index];
    if core[index].indent == indent {
      if IsItem(core[index].content) {
        SequenceAgrees(core, blanks, index, indent, [], json);
      } else {
        MappingAgrees(core, blanks, index, indent, EMPTY, json, fuel);
      }
    }
  }

  lemma {:induction false} EntryAgrees(
    core: seq<ParsedLine>, blanks: seq<ParsedLine>, n: nat, indent: nat, part: string, json: Json, fuel: nat
  )
    requires BlankEnded(core, blanks) && n < |core| && fuel >= |core| - n && core[n].indent == indent
    requires First(core) >= 0 && indent >= core[First(core)].indent
    ensures var short := ParseEntry(core, n, indent, part, json, fuel);
            var long := ParseEntry(core + blanks, n, indent, part, json, fuel);
            && (short.Parsed? && short.next >= |core| && n + 1 == |core| ==> long == short)
            && (n + 1 < |core| ==> Agree(core, short, long))
            && (!short.Parsed? ==> long == short)
    decreases fuel, 2
  {
    hide ParseBlock, ParseScalar, NextContent, ParseMapping;
    SameNext(core, blanks, n + 1);
    assert (core + blanks)[n] == core[n];
    var nested := NextContent(core, n + 1);
    if n + 1 == |core| {
      NextPast(core, n + 1);
    }
    if nested >= 0 {
      assert (core + blanks)[nested] == core[nested];
    }
    if part == [] && nested >= 0 && core[nested].indent == indent + 2 {
      BlockAgrees(core, blanks, nested, indent + 2, json, fuel);
    }
  }

  lemma {:induction false} MappingAgrees(
    core: seq<ParsedLine>, blanks: seq<ParsedLine>, current: nat, indent: nat, acc: Properties,
    json: Json, fuel: nat
  )
    requires BlankEnded(core, blanks) && current <= |core| && fuel > |core| - current && BelowTop(core, indent)
    ensures Agree(core, ParseMapping(core, current, indent, acc, json, fuel),
                  ParseMapping(core + blanks, current, indent, acc, json, fuel))
    decreases fuel, 0
  {
    hide ParseEntry, SplitKeyValue, NextContent, Assign, IsItem, ParseBlock;
    SameNext(core, blanks, current);
    if current == |core| {
      NextPast(core, current);
    } else {
      NextExists(core, current);
      var n := NextContent(core, current);
      assert (core + blanks)[n] == core[n];
      if core[n].indent == indent && !IsItem(core[n].content) {
        match SplitKeyValue(core[n].content)
        case BadSplit(kind) =>
        case Pair(key, part) =>
          if key !in acc.entries {
            EntryAgrees(core, blanks, n, indent, part, json, fuel - 1);
            EntryAdvances(core, n, indent, part, json, fuel - 1);
            var entry := ParseEntry(core, n, indent, part, json, fuel - 1);
            if entry.Parsed? {
              MappingAgrees(core, blanks, entry.next, indent, Assign(acc, key, entry.value), json, fuel - 1);
              RestartLeaves(core, blanks, indent, Assign(acc, key, entry.value), json, fuel - 1);
            }
          }
      }
    }
  }

  // Started over at the first line, a block below the top ends at once.
  lemma {:induction false} RestartLeaves(
    core: seq<ParsedLine>, blanks: seq<ParsedLine>, indent: nat, acc: Properties, json: Json, fuel: nat
  )
    requires BlankEnded(core, blanks) && fuel > 0 && BelowTop(core, indent)
    ensures forall c | c == -1 || c == First(core) ::
              ParseMapping(core + blanks, c, indent, acc, json, fuel) == Parsed(Mapping(acc), First(core))
    ensures ParseMapping(core, |core|, indent, acc, json, fuel) == Parsed(Mapping(acc), |core|)
  {
    hide ParseEntry, SplitKeyValue, NextContent, IsItem, ParseBlock;
    forall c | c == -1 || c == First(core)
      ensures ParseMapping(core + blanks, c, indent, acc, json, fuel) == Parsed(Mapping(acc), First(core))
    {
      RestartsAtFirst(core, blanks, c);
      assert (core + blanks)[First(core)] == core[First(core)];
    }
  }

  // ----- The block at the top -----

  function Top(core: seq<ParsedLine>): nat
    requires First(core) >= 0
  {
    core[First(core)].indent
  }

  function LastIndent(core: seq<ParsedLine>): nat
    requires core != []
  {
    core[|core| - 1].indent
  }

  lemma {:induction false} RestartIsFirst(
    core: seq<ParsedLine>, blanks: seq<ParsedLine>, c: int, acc: Properties, json: Json, fuel: nat
  )
    requires BlankEnded(core, blanks) && (c == -1 || c == First(core)) && First(core) >= 0
    ensures ParseMapping(core + blanks, c, Top(core), acc, json, fuel)
         == ParseMapping(core + blanks, First(core), Top(core), acc, json, fuel)
  {
    hide ParseEntry, SplitKeyValue, NextContent, IsItem, Assign;
    RestartsAtFirst(core, blanks, c);
    RestartsAtFirst(core, blanks, First(core));
  }

  // The top block on the longer lines: it ends there too, unless a nested block
  // took the last line; then it is run again with the keys it has.
  lemma {:induction false} TopAgrees(
    core: seq<ParsedLine>, blanks: seq<ParsedLine>, current: nat, acc: Properties, json: Json, fuel: nat
  ) returns (left: nat)
    requires BlankEnded(core, blanks) && First(core) >= 0 && current <= |core| && fuel > |core| - current
    ensures var short := ParseMapping(core, current, Top(core), acc, json, fuel);
            var long := ParseMapping(core + blanks, current, Top(core), acc, json, fuel);
            && (!short.Parsed? || short.next < |core| ==> long == short)
            && (short.Parsed? && short.next >= |core| && (current == |core| || LastIndent(core) == Top(core)) ==>
                  long == Parsed(short.value, -1))
            && (short.Parsed? && short.next >= |core| && current < |core| && LastIndent(core) != Top(core) ==>
                  left + |core| >= fuel + current
                  && long == ParseMapping(core + blanks, First(core), Top(core), short.value.properties, json, left))
    decreases fuel
  {
    hide ParseEntry, SplitKeyValue, NextContent, Assign, IsItem, ParseBlock, First;
    left := 0;
    var top := Top(core);
    SameNext(core, blanks, current);
    if current == |core| {
      NextPast(core, current);
    } else {
      NextExists(core, current);
      var n := NextContent(core, current);
      assert (core + blanks)[n] == core[n];
      if core[n].indent == top && !IsItem(core[n].content) {
        match SplitKeyValue(core[n].content)
        case BadSplit(kind) =>
        case Pair(key, part) =>
          if key !in acc.entries {
            EntryAgrees(core, blanks, n, top, part, json, fuel - 1);
            EntryAdvances(core, n, top, part, json, fuel - 1);
            var entry := ParseEntry(core, n, top, part, json, fuel - 1);
            if entry.Parsed? {
              var next := Assign(acc, key, entry.value);
              left := TopAgrees(core, blanks, entry.next, next, json, fuel - 1);
              if entry.next >= |core| && n + 1 < |core| {
                left := fuel - 1;
                var long := ParseEntry(core + blanks, n, top, part, json, fuel - 1);
                RestartIsFirst(core, blanks, long.next, next, json, fuel - 1);
              }
            }
          }
      }
    }
  }

  // What a pass keeps: own keys stay, and a setter out of reach stays so.
  ghost predicate KeysLeft(before: Properties, after: Properties) {
    before.entries.Keys <= after.entries.Keys && (after.setter ==> before.setter)
  }

  lemma {:induction false} KeysGrow(
    lines: seq<ParsedLine>, current: int, indent: nat, acc: Properties, json: Json, fuel: nat
  )
    requires -1 <= current
    ensures var r := ParseMapping(lines, current, indent, acc, json, fuel);
            r.Parsed? ==> KeysLeft(acc, r.value.properties)
    decreases fuel
  {
    hide ParseEntry, SplitKeyValue, NextContent, IsItem;
    if fuel > 0 && current < |lines| {
      var n := NextContent(lines, current);
      if n >= 0 && lines[n].indent == indent && !IsItem(lines[n].content) {
        match SplitKeyValue(lines[n].content)
        case BadSplit(kind) =>
        case Pair(key, part) =>
          var entry := ParseEntry(lines, n, indent, part, json, fuel - 1);
          if entry.Parsed? {
            KeysGrow(lines, entry.next, indent, Assign(acc, key, entry.value), json, fuel - 1);
          }
      }
    }
  }

  // What one step of a successful pass over the top block consists of.
  lemma {:induction false} TopStep(core: seq<ParsedLine>, current: nat, acc: Properties, json: Json, fuel: nat)
    returns (n: nat, key: string, part: string, entry: Outcome)
    requires EndsWithContent(core) && First(core) >= 0 && current < |core| && fuel > |core| - current
    requires var r := ParseMapping(core, current, Top(core), acc, json, fuel);
             r.Parsed? && r.next >= |core|
    ensures current <= n < |core| && n == NextContent(core, current) && core[n].indent == Top(core)
    ensures !IsItem(core[n].content) && SplitKeyValue(core[n].content) == Pair(key, part) && key !in acc.entries
    ensures entry == ParseEntry(core, n, Top(core), part, json, fuel - 1)
            && entry.Parsed? && n < entry.next <= |core|
    ensures ParseMapping(core, current, Top(core), acc, json, fuel)
         == ParseMapping(core, entry.next, Top(core), Assign(acc, key, entry.value), json, fuel - 1)
    ensures n + 1 < |core| && entry.next == |core| ==> LastIndent(core) > Top(core)
    ensures n + 1 == |core| ==> LastIndent(core) == Top(core)
  {
    hide ParseEntry, SplitKeyValue, NextContent, Assign, IsItem, ParseBlock, First;
    NextExists(core, current);
    n := NextContent(core, current);
    var split := SplitKeyValue(core[n].content);
    key, part := split.key, split.value;
    EntryAdvances(core, n, Top(core), part, json, fuel - 1);
    entry := ParseEntry(core, n, Top(core), part, json, fuel - 1);
  }

  // A parse of the top block from a line on, to the end of the lines.
  ghost predicate ReachesEnd(core: seq<ParsedLine>, current: nat, acc: Properties, json: Json, fuel: nat)
    requires First(core) >= 0
  {
    && current < |core| && fuel > |core| - current
    && var r := ParseMapping(core, current, Top(core), acc, json, fuel); r.Parsed? && r.next >= |core|
  }

  function PassFrom(core: seq<ParsedLine>, current: nat, acc: Properties, json: Json, fuel: nat): Properties
    requires First(core) >= 0 && ReachesEnd(core, current, acc, json, fuel)
  {
    ParseMapping(core, current, Top(core), acc, json, fuel).value.properties
  }

  ghost predicate IsDuplicate(r: Outcome, keys: set<string>) {
    r.Failed? && r.kind.DuplicateKey? && r.kind.key in keys
  }

  // The same step, taken with other properties.
  lemma {:induction false} OtherStep(
    core: seq<ParsedLine>, current: nat, n: nat, key: string, part: string, entry: Outcome, acc: Properties,
    json: Json, fuel: nat
  )
    requires First(core) >= 0 && current <= n < |core| && n == NextContent(core, current) && fuel > 0
    requires core[n].indent == Top(core) && !IsItem(core[n].content) && SplitKeyValue(core[n].content) == Pair(key, part)
    requires entry == ParseEntry(core, n, Top(core), part, json, fuel - 1) && entry.Parsed?
    ensures ParseMapping(core, current, Top(core), acc, json, fuel) ==
            if key in acc.entries then Failed(DuplicateKey(key), core[n].lineNumber)
            else ParseMapping(core, entry.next, Top(core), Assign(acc, key, entry.value), json, fuel - 1)
  {
    hide ParseEntry, SplitKeyValue, NextContent, Assign, IsItem, First;
  }

  lemma {:induction false} AtEnd(core: seq<ParsedLine>, acc: Properties, json: Json, fuel: nat)
    requires First(core) >= 0 && fuel > 0
    ensures ParseMapping(core, |core|, Top(core), acc, json, fuel) == Parsed(Mapping(acc), |core|)
  {
  }

  // Run with the own keys it gave, the block meets one of them.
  lemma {:induction false} OwnKeyIsMet(
    core: seq<ParsedLine>, current: nat, a: Properties, b: Properties, json: Json, fuel: nat
  )
    requires EndsWithContent(core) && First(core) >= 0 && ReachesEnd(core, current, a, json, fuel)
    requires var m := PassFrom(core, current, a, json, fuel);
             m.entries.Keys <= b.entries.Keys && exists key :: key in m.entries && key !in a.entries
    ensures IsDuplicate(ParseMapping(core, current, Top(core), b, json, fuel), b.entries.Keys + {PROTO})
    decreases fuel
  {
    hide ParseMapping, ParseEntry, SplitKeyValue, NextContent, IsItem, ParseBlock, First;
    var m := PassFrom(core, current, a, json, fuel);
    var n, key, part, entry := TopStep(core, current, a, json, fuel);
    OtherStep(core, current, n, key, part, entry, b, json, fuel);
    var a', b' := Assign(a, key, entry.value), Assign(b, key, entry.value);
    KeysGrow(core, entry.next, Top(core), a', json, fuel - 1);
    if key !in b.entries {
      assert key == PROTO;
      if entry.next == |core| {
        AtEnd(core, a', json, fuel - 1);
      } else {
        OwnKeyIsMet(core, entry.next, a', b', json, fuel - 1);
      }
    }
  }

  // A block that gives no own key shows `__proto__` again and again.
  lemma {:induction false} OnlyProtoStep(core: seq<ParsedLine>, current: nat, a: Properties, json: Json, fuel: nat)
    returns (n: nat, key: string, part: string, entry: Outcome)
    requires EndsWithContent(core) && First(core) >= 0 && ReachesEnd(core, current, a, json, fuel)
    requires PassFrom(core, current, a, json, fuel).entries == map[]
    ensures current <= n < |core| && n == NextContent(core, current) && core[n].indent == Top(core)
    ensures !IsItem(core[n].content) && SplitKeyValue(core[n].content) == Pair(key, part) && key == PROTO
    ensures entry == ParseEntry(core, n, Top(core), part, json, fuel - 1) && entry.Parsed? && n < entry.next <= |core|
    ensures entry.next < |core| ==>
              ReachesEnd(core, entry.next, Assign(a, key, entry.value), json, fuel - 1)
              && PassFrom(core, entry.next, Assign(a, key, entry.value), json, fuel - 1).entries == map[]
  {
    hide ParseMapping, ParseEntry, SplitKeyValue, NextContent, IsItem, ParseBlock, First;
    n, key, part, entry := TopStep(core, current, a, json, fuel);
    var next := Assign(a, key, entry.value);
    KeysGrow(core, entry.next, Top(core), next, json, fuel - 1);
    assert key != PROTO ==> key in next.entries;
    if entry.next == |core| {
      AtEnd(core, next, json, fuel - 1);
    }
  }

  // Without the setter, the first `__proto__` becomes an own key, and the next one is
  // a duplicate.
  lemma {:induction false} ProtoBecomesKey(core: seq<ParsedLine>, b: Properties, json: Json, fuel: nat)
    requires EndsWithContent(core) && First(core) >= 0 && ReachesEnd(core, First(core), EMPTY, json, fuel)
    requires PassFrom(core, First(core), EMPTY, json, fuel).entries == map[]
    ensures var r := ParseMapping(core, First(core), Top(core), b, json, fuel);
            && (PROTO in b.entries ==> IsDuplicate(r, {PROTO}))
            && (PROTO !in b.entries && !b.setter ==>
                  IsDuplicate(r, {PROTO})
                  || (r.Parsed? && r.next == |core| && r.value.Mapping? && PROTO in r.value.properties.entries))
  {
    hide ParseMapping, ParseEntry, SplitKeyValue, NextContent, IsItem, ParseBlock, First;
    var n, key, part, entry := OnlyProtoStep(core, First(core), EMPTY, json, fuel);
    OtherStep(core, First(core), n, key, part, entry, b, json, fuel);
    if PROTO !in b.entries && !b.setter {
      var b' := Assign(b, key, entry.value);
      if entry.next == |core| {
        AtEnd(core, b', json, fuel - 1);
      } else {
        var n2, key2, part2, entry2 :=
          OnlyProtoStep(core, entry.next, Assign(EMPTY, key, entry.value), json, fuel - 1);
        OtherStep(core, entry.next, n2, key2, part2, entry2, b', json, fuel - 1);
      }
    }
  }

  lemma {:induction false} StaysEmpty(core: seq<ParsedLine>, next: nat, key: string, v: Value, json: Json, fuel: nat)
    requires First(core) >= 0
    requires var r := ParseMapping(core, next, Top(core), Assign(EMPTY, key, v), json, fuel);
             r.Parsed? && r.value == Mapping(EMPTY)
    ensures key == PROTO && Assign(EMPTY, key, v) == EMPTY
  {
    hide ParseMapping, First;
    KeysGrow(core, next, Top(core), Assign(EMPTY, key, v), json, fuel);
    assert key != PROTO ==> key in Assign(EMPTY, key, v).entries;
  }

  // With no own key there is nothing to meet again: every fuel runs out.
  lemma {:induction false} RunsForever(
    core: seq<ParsedLine>, blanks: seq<ParsedLine>, current: nat, json: Json, fuel: nat
  )
    requires BlankEnded(core, blanks) && First(core) >= 0 && current < |core| && LastIndent(core) > Top(core)
    requires ParseMapping(core, First(core), Top(core), EMPTY, json, |core| + 1) == Parsed(Mapping(EMPTY), |core|)
    requires ParseMapping(core, current, Top(core), EMPTY, json, |core| + 1) == Parsed(Mapping(EMPTY), |core|)
    ensures ParseMapping(core + blanks, current, Top(core), EMPTY, json, fuel).OutOfFuel?
    decreases fuel
  {
    hide ParseEntry, SplitKeyValue, NextContent, IsItem, ParseBlock, First, Assign;
    if fuel > 0 {
      var full, top := core + blanks, Top(core);
      var n, key, part, entry := TopStep(core, current, EMPTY, json, |core| + 1);
      SameNext(core, blanks, current);
      assert full[n] == core[n];
      StaysEmpty(core, entry.next, key, entry.value, json, |core|);
      var long := ParseEntry(full, n, top, part, json, fuel - 1);
      if !long.OutOfFuel? {
        EntryInFull(core, blanks, n, part, json, fuel - 1);
        if entry.next < |core| {
          MappingFuel(core, entry.next, top, EMPTY, json, |core|, |core| + 1);
          RunsForever(core, blanks, entry.next, json, fuel - 1);
        } else {
          RestartIsFirst(core, blanks, long.next, EMPTY, json, fuel - 1);
          FirstInside(core);
          RunsForever(core, blanks, First(core), json, fuel - 1);
        }
      }
    }
  }

  // An entry that ends with little fuel ends as it does with plenty.
  lemma {:induction false} EntryInFull(
    core: seq<ParsedLine>, blanks: seq<ParsedLine>, n: nat, part: string, json: Json, fuel: nat
  )
    requires BlankEnded(core, blanks) && First(core) >= 0 && n < |core| && core[n].indent == Top(core)
    requires LastIndent(core) > Top(core)
    requires ParseEntry(core, n, Top(core), part, json, |core|).Parsed?
    requires !ParseEntry(core + blanks, n, Top(core), part, json, fuel).OutOfFuel?
    ensures Agree(core, ParseEntry(core, n, Top(core), part, json, |core|),
                  ParseEntry(core + blanks, n, Top(core), part, json, fuel))
  {
    hide ParseEntry, First;
    var more := if fuel > |core| then fuel else |core|;
    EntryFuel(core + blanks, n, Top(core), part, json, fuel, more);
    EntryFuel(core, n, Top(core), part, json, |core|, more);
    EntryAgrees(core, blanks, n, Top(core), part, json, more);
  }

  // ----- Main results -----

  /** Lines that end with content: the parser stops, whatever the keys are. */
  lemma {:induction false} ContentEndingStops(lines: seq<ParsedLine>, json: Json, fuel: nat)
    requires EndsWithContent(lines) && fuel > |lines|
    ensures !ParseLines(lines, json, fuel).OutOfFuel?
    ensures ParseLines(lines, json, fuel).Parsed? ==> ParseLines(lines, json, fuel).next == |lines|
  {
    hide ParseBlock;
    NextExists(lines, 0);
    var start := NextContent(lines, 0);
    BlockAdvances(lines, start, lines[start].indent, json, fuel);
    var r := ParseBlock(lines, start, lines[start].indent, json, fuel);
    if r.Parsed? && r.next < |lines| {
      NextExists(lines, r.next);
    }
  }

  /** What the parser makes of lines followed by blank ones, told from the lines alone. */
  lemma {:induction false} BlankEnding(core: seq<ParsedLine>, blanks: seq<ParsedLine>, json: Json, fuel: nat)
    requires BlankEnded(core, blanks) && fuel > 3 * |core| + 1
    ensures First(core) >= 0
    ensures var short, long := ParseLines(core, json, fuel), ParseLines(core + blanks, json, fuel);
            && (short.Failed? ==> long == short)
            && (short.Parsed? && LastIndent(core) == Top(core) ==>
                  long == Failed(TrailingContent, core[First(core)].lineNumber))
            && (short.Parsed? && LastIndent(core) != Top(core) ==> short.value.Mapping?)
            && (short.Parsed? && LastIndent(core) != Top(core) && short.value != Mapping(EMPTY) ==>
                  IsDuplicate(long, short.value.properties.entries.Keys + {PROTO}))
            && (short.Parsed? && LastIndent(core) != Top(core) && short.value == Mapping(EMPTY) ==>
                  long.OutOfFuel?)
  {
    hide ParseMapping, ParseSequence, IsItem, NextContent, ParseLines;
    NextExists(core, 0);
    SameNext(core, blanks, 0);
    var f := First(core);
    assert (core + blanks)[f] == core[f];
    var block := ParseBlock(core, f, Top(core), json, fuel);
    var long := ParseBlock(core + blanks, f, Top(core), json, fuel);
    BlockAdvances(core, f, Top(core), json, fuel);
    TrailingLine(core, blanks, block, json, fuel);
    if IsItem(core[f].content) {
      SequenceAgrees(core, blanks, f, Top(core), [], json);
      SequenceAdvances(core, f, Top(core), [], json);
    } else {
      var left := TopAgrees(core, blanks, f, EMPTY, json, fuel);
      if block.Parsed? && block.next >= |core| && LastIndent(core) != Top(core) {
        TopRestarts(core, blanks, block.value.properties, json, fuel, left);
      }
    }
  }

  // The top block, given back to itself at the first line.
  lemma {:induction false} TopRestarts(
    core: seq<ParsedLine>, blanks: seq<ParsedLine>, m: Properties, json: Json, fuel: nat, left: nat
  )
    requires BlankEnded(core, blanks) && First(core) >= 0 && LastIndent(core) != Top(core)
    requires fuel > 3 * |core| + 1 && left + |core| >= fuel
    requires ParseMapping(core, First(core), Top(core), EMPTY, json, fuel) == Parsed(Mapping(m), |core|)
    ensures var long := ParseMapping(core + blanks, First(core), Top(core), m, json, left);
            if m == EMPTY then long.OutOfFuel? else IsDuplicate(long, m.entries.Keys + {PROTO})
  {
    hide ParseMapping;
    var f := First(core);
    FirstInside(core);
    EnoughFuel(core, EMPTY, json, fuel, |core| + 1);
    MappingAdvances(core, f, Top(core), EMPTY, json, |core| + 1);
    if m == EMPTY {
      RunsForever(core, blanks, f, json, left);
    } else {
      EnoughFuel(core, EMPTY, json, |core| + 1, left);
      SecondPass(core, blanks, m, json, left);
    }
  }

  lemma {:induction false} EnoughFuel(core: seq<ParsedLine>, acc: Properties, json: Json, fuel: nat, other: nat)
    requires EndsWithContent(core) && First(core) >= 0 && fuel > |core| && other > |core|
    ensures ParseMapping(core, First(core), Top(core), acc, json, fuel)
         == ParseMapping(core, First(core), Top(core), acc, json, other)
  {
    hide ParseMapping;
    MappingAdvances(core, First(core), Top(core), acc, json, |core| + 1);
    MappingFuel(core, First(core), Top(core), acc, json, |core| + 1, fuel);
    MappingFuel(core, First(core), Top(core), acc, json, |core| + 1, other);
  }

  // With anything left of the first pass, the second or the third meets a key again.
  lemma {:induction false} SecondPass(
    core: seq<ParsedLine>, blanks: seq<ParsedLine>, m: Properties, json: Json, fuel: nat
  )
    requires BlankEnded(core, blanks) && First(core) >= 0 && LastIndent(core) != Top(core) && fuel > 2 * |core| + 1
    requires ParseMapping(core, First(core), Top(core), EMPTY, json, fuel) == Parsed(Mapping(m), |core|) && m != EMPTY
    ensures IsDuplicate(ParseMapping(core + blanks, First(core), Top(core), m, json, fuel), m.entries.Keys + {PROTO})
  {
    hide ParseMapping, First;
    FirstInside(core);
    var f := First(core);
    var left := TopAgrees(core, blanks, f, m, json, fuel);
    if m.entries != map[] {
      assert exists key :: key in m.entries && key !in EMPTY.entries;
      OwnKeyIsMet(core, f, EMPTY, m, json, fuel);
    } else {
      ProtoBecomesKey(core, m, json, fuel);
      var second := ParseMapping(core, f, Top(core), m, json, fuel);
      if second.Parsed? {
        EnoughFuel(core, EMPTY, json, fuel, left);
        ProtoBecomesKey(core, second.value.properties, json, left);
        var rest := TopAgrees(core, blanks, f, second.value.properties, json, left);
      }
    }
  }

  // How the trailing check sees the end of the top block, on both lists of lines.
  lemma {:induction false} TrailingLine(
    core: seq<ParsedLine>, blanks: seq<ParsedLine>, block: Outcome, json: Json, fuel: nat
  )
    requires BlankEnded(core, blanks) && First(core) >= 0
    requires block == ParseBlock(core, First(core), Top(core), json, fuel)
    requires block.Parsed? ==> 0 <= block.next <= |core|
    ensures block.Parsed? && block.next < |core| ==> NextContent(core, block.next) >= 0
    ensures ParseLines(core, json, fuel) ==
            if !block.Parsed? then block
            else if block.next < |core| then Failed(TrailingContent, core[NextContent(core, block.next)].lineNumber)
            else block
    ensures var long := ParseBlock(core + blanks, First(core), Top(core), json, fuel);
            ParseLines(core + blanks, json, fuel) ==
            if !long.Parsed? then long
            else if long == block && block.next < |core| then ParseLines(core, json, fuel)
            else if long.next == -1 then Failed(TrailingContent, core[First(core)].lineNumber)
            else ParseLines(core + blanks, json, fuel)
  {
    hide ParseBlock, NextContent;
    RestartsAtFirst(core, blanks, -1);
    RestartsAtFirst(core, blanks, First(core));
    SameNext(core, blanks, 0);
    assert (core + blanks)[First(core)] == core[First(core)];
    if block.Parsed? {
      SameNext(core, blanks, block.next);
      if block.next < |core| {
        NextExists(core, block.next);
        assert (core + blanks)[NextContent(core, block.next)] == core[NextContent(core, block.next)];
      } else {
        NextPast(core, block.next);
      }
    }
  }

  // The one case in which the parser does not stop.
  ghost predicate Endless(core: seq<ParsedLine>, json: Json)
    requires EndsWithContent(core)
  {
    && First(core) >= 0 && LastIndent(core) != Top(core)
    && ParseLines(core, json, 3 * |core| + 2) == Parsed(Mapping(EMPTY), |core|)
  }

  /** A blank ending never parses, and the parser stops unless `Endless` holds. */
  lemma {:induction false} BlankEndingNeverParses(core: seq<ParsedLine>, blanks: seq<ParsedLine>, json: Json)
    requires BlankEnded(core, blanks)
    ensures forall fuel: nat :: !ParseLines(core + blanks, json, fuel).Parsed?
    ensures (forall fuel: nat :: ParseLines(core + blanks, json, fuel).OutOfFuel?) <==> Endless(core, json)
  {
    hide ParseLines;
    var enough := 3 * |core| + 2;
    BlankEnding(core, blanks, json, enough);
    ContentEndingStops(core, json, enough);
    forall fuel: nat
      ensures !ParseLines(core + blanks, json, fuel).Parsed?
      ensures Endless(core, json) ==> ParseLines(core + blanks, json, fuel).OutOfFuel?
    {
      if !ParseLines(core + blanks, json, fuel).OutOfFuel? {
        var more := if fuel > enough then fuel else enough;
        LinesFuel(core + blanks, json, fuel, more);
        LinesFuel(core, json, enough, more);
        BlankEnding(core, blanks, json, more);
      }
    }
    if !Endless(core, json) {
      assert !ParseLines(core + blanks, json, enough).OutOfFuel?;
    }
  }

  // ----- The same for text -----

  lemma {:induction false} NewlineKept(raw: string)
    requires raw != [] && raw[|raw| - 1] == '\n'
    ensures var n := NormalizeNewlines(raw); n != [] && n[|n| - 1] == '\n'
    decreases raw
  {
    if |raw| >= 2 && raw[0] == '\r' && raw[1] == '\n' {
      if |raw| > 2 {
        NewlineKept(raw[2..]);
      }
    } else if |raw| > 1 {
      NewlineKept(raw[1..]);
    }
  }

  lemma {:induction false} LastPieceEmpty(s: string)
    requires s != [] && s[|s| - 1] == '\n'
    ensures var r := SplitLines(s); |r| > 1 && r[|r| - 1] == ""
  {
    if |s| > 1 {
      LastPieceEmpty(s[1..]);
    } else {
      assert s[1..] == [];
    }
  }

  // Every list of lines with content is some lines ending with content, then blank ones.
  lemma {:induction false} Split(lines: seq<ParsedLine>) returns (k: nat)
    requires exists l <- lines :: !IsBlank(l)
    ensures k <= |lines| && EndsWithContent(lines[..k]) && AllBlank(lines[k..])
    ensures lines == lines[..k] + lines[k..]
    ensures IsBlank(lines[|lines| - 1]) ==> k < |lines|
  {
    if !IsBlank(lines[|lines| - 1]) {
      k := |lines|;
    } else {
      var front := lines[..|lines| - 1];
      var i :| 0 <= i < |lines| && !IsBlank(lines[i]);
      assert front[i] == lines[i];
      k := Split(front);
      assert k <= |front| && lines == front + [lines[|lines| - 1]];
      hide EndsWithContent, AllBlank;
      assert lines[..k] == front[..k];
      assert lines[k..] == front[k..] + [lines[|lines| - 1]];
      BlankBehind(front[k..], lines[|lines| - 1]);
    }
  }

  lemma BlankBehind(blanks: seq<ParsedLine>, last: ParsedLine)
    requires AllBlank(blanks) && IsBlank(last)
    ensures AllBlank(blanks + [last])
  {
  }

  // All that a text has is white space and comments.
  ghost predicate NoContent(raw: string) {
    var lines := ToLines(SourceLines(raw), 0);
    lines.Ok? && NextContent(lines.value, 0) < 0
  }

  /** A text whose last line is blank is parsed only when there is nothing to parse. */
  lemma {:induction false} BlankEndedText(raw: string, json: Json, fuel: nat)
    requires !TakenAsJson(raw, json)
    requires var read := ToLines(SourceLines(raw), 0); read.Ok? ==> IsBlank(read.value[|read.value| - 1])
    ensures ParseText(raw, json, fuel).Parsed? <==> Trim(raw) == [] || NoContent(raw)
  {
    hide ParseLines, TakenAsJson, NormalizeNewlines, SplitLines, Trim, ToLines;
    var read := ToLines(SourceLines(raw), 0);
    if Trim(raw) != [] && read.Ok? {
      var lines := read.value;
      if NoContent(raw) {
        NothingToParse(lines, json, fuel);
      } else {
        var start := NextContent(lines, 0);
        assert lines[start] in lines && !IsBlank(lines[start]);
        var k := Split(lines);
        BlankEndingNeverParses(lines[..k], lines[k..], json);
      }
    }
  }

  /** So is a text that ends with a newline. */
  lemma {:induction false} NewlineEndedText(raw: string, json: Json, fuel: nat)
    requires raw != [] && raw[|raw| - 1] == '\n'
    requires !TakenAsJson(raw, json)
    ensures ParseText(raw, json, fuel).Parsed? <==> Trim(raw) == [] || NoContent(raw)
  {
    hide ParseText, TakenAsJson, NormalizeNewlines, SplitLines, Trim, ToLines;
    var sources, read := SourceLines(raw), ToLines(SourceLines(raw), 0);
    NewlineKept(raw);
    LastPieceEmpty(NormalizeNewlines(raw));
    if read.Ok? {
      var lines := read.value;
      LinesAreConverted(sources, 0);
      EmptyLineIsBlank(|sources|);
      assert ToLine(sources[0 + (|lines| - 1)], 0 + (|lines| - 1) + 1) == Ok(lines[|lines| - 1]);
    }
    BlankEndedText(raw, json, fuel);
  }

  lemma EmptyLineIsBlank(n: nat)
    ensures ToLine("", n) == Ok(ParsedLine(n, 0, ""))
  {
  }

  lemma NothingToParse(lines: seq<ParsedLine>, json: Json, fuel: nat)
    requires NextContent(lines, 0) < 0
    ensures ParseLines(lines, json, fuel) == Parsed(Mapping(EMPTY), -1)
  {
  }

  // ----- Concrete inputs -----

  // `__proto__:` over an indented `a: 1`, and a final newline.
  const EXAMPLE := [ParsedLine(1, 0, "__proto__:"), ParsedLine(2, 2, "a: 1")]

  lemma {:induction false} OuterSplits()
    ensures SplitKeyValue("__proto__:") == Pair("__proto__", "") && !IsItem("__proto__:")
  {
    hide Find, Scan, TrimStart;
    assert "__proto__:"[0] == '_';
    PlainText("__proto__");
    SplitAtDelimiter("__proto__", "");
    assert "__proto__" + ":" + "" == "__proto__:";
    assert TrimStart("") == "" by { TrimKeepsTrimmed(""); }
  }

  lemma {:induction false} InnerSplits(json: Json)
    ensures SplitKeyValue("a: 1") == Pair("a", "1") && !IsItem("a: 1")
    ensures ParseScalar("1", json).Some?
  {
    hide Find, Scan, TrimStart, NumberText;
    assert "a: 1"[0] == 'a';
    PlainText("a");
    SplitAtDelimiter("a", " 1");
    assert "a" + ":" + " 1" == "a: 1";
    assert TrimStart(" 1") == "1" by { TrimStartSkips(" ", "1"); TrimKeepsTrimmed("1"); assert " " + "1" == " 1"; }
  }

  lemma {:induction false} EndlessExample(json: Json)
    ensures EndsWithContent(EXAMPLE) && Endless(EXAMPLE, json)
    ensures forall fuel: nat :: ParseLines(EXAMPLE + [ParsedLine(3, 0, "")], json, fuel).OutOfFuel?
  {
    hide SplitKeyValue, ParseScalar, IsItem;
    var core := EXAMPLE;
    OuterSplits();
    InnerSplits(json);
    assert NextContent(core, 0) == 0 && NextContent(core, 1) == 1;
    var one := ParseScalar("1", json).value;
    assert ParseEntry(core, 1, 2, "1", json, 6) == Parsed(one, 2);
    assert PROTO != "a" && Assign(EMPTY, "a", one) == Properties(map["a" := one], true);
    var inner := ParseBlock(core, 1, 2, json, 7);
    assert inner == Parsed(Mapping(Properties(map["a" := one], true)), 2);
    assert ParseEntry(core, 0, 0, "", json, 7) == inner;
    assert Assign(EMPTY, PROTO, inner.value) == EMPTY;
    assert ParseMapping(core, 2, 0, EMPTY, json, 7) == Parsed(Mapping(EMPTY), 2);
    assert ParseMapping(core, 0, 0, EMPTY, json, 8) == Parsed(Mapping(EMPTY), 2);
    BlankEndingNeverParses(core, [ParsedLine(3, 0, "")], json);
  }
}
