/**
 The two stores in simulation: the same operations give the same answers and the
 same records. They differ in empty namespaces, and in a few operations whose
 exact conditions are stated here.
 */
module StorageAgreement {

  import opened Options
  import opened Strings
  import opened StorageModel

  // The same records under the same namespace and key.
  ghost predicate Same<V>(n: Namespaces<V>, t: Table<V>) {
    forall ns: string, key: string :: SameAt(n, t, ns, key)
  }

  ghost predicate SameAt<V>(n: Namespaces<V>, t: Table<V>, ns: string, key: string) {
    MemoryLookup(n, ns, key) == Lookup(t, (ns, key))
  }

  function MemoryLookup<V>(n: Namespaces<V>, ns: string, key: string): Option<Rec<V>> {
    if ns in n then Lookup(n[ns], key) else None
  }

  predicate Fails<V>(r: Reply<V>) {
    r.InvalidName? || r.Conflict? || r.NestedTransaction?
  }

  // ----- Inserting a list of entries -----

  predicate NoBlankKey<V>(items: seq<Item<V>>) {
    forall i | 0 <= i < |items| :: Normalize(items[i].key).Some?
  }

  predicate NoSharedKey<V>(items: seq<Item<V>>) {
    forall i, j | 0 <= i < j < |items| :: Normalize(items[i].key) != Normalize(items[j].key)
  }

  // The record a list of entries gives a key: that of the last entry with it.
  function LastWith<V>(items: seq<Item<V>>, key: string): Option<Rec<V>> {
    if items == [] then None
    else if LastWith(items[1..], key).Some? then LastWith(items[1..], key)
    else if Normalize(items[0].key) == Some(key) then Some(items[0].rec)
    else None
  }

  lemma {:induction false} CollectResult<V>(items: seq<Item<V>>, acc: map<string, Rec<V>>)
    ensures Collect(items, acc).Some? <==> NoBlankKey(items)
    ensures Collect(items, acc).Some? ==> forall key ::
              Lookup(Collect(items, acc).value, key)
              == if LastWith(items, key).Some? then LastWith(items, key) else Lookup(acc, key)
    decreases items
  {
    hide Normalize;
    if items != [] && Normalize(items[0].key).Some? {
      CollectResult(items[1..], acc[Normalize(items[0].key).value := items[0].rec]);
      assert items == [items[0]] + items[1..];
    }
  }

  // None of the keys is taken already.
  predicate AllFree<V>(t: Table<V>, ns: string, items: seq<Item<V>>) {
    forall i | 0 <= i < |items| && Normalize(items[i].key).Some? :: (ns, Normalize(items[i].key).value) !in t
  }

  lemma {:induction false} InsertSucceeds<V>(t: Table<V>, ns: string, items: seq<Item<V>>)
    ensures Insert(t, ns, items).Inserted? <==> NoBlankKey(items) && NoSharedKey(items) && AllFree(t, ns, items)
    decreases items
  {
    hide Normalize;
    if items != [] && Normalize(items[0].key).Some? {
      var key := Normalize(items[0].key).value;
      if (ns, key) !in t {
        InsertSucceeds(t[(ns, key) := items[0].rec], ns, items[1..]);
        HeadAndTail(t, ns, items);
      }
    }
  }

  lemma {:induction false} HeadAndTail<V>(t: Table<V>, ns: string, items: seq<Item<V>>)
    requires items != [] && Normalize(items[0].key).Some? && (ns, Normalize(items[0].key).value) !in t
    ensures var t1 := t[(ns, Normalize(items[0].key).value) := items[0].rec];
            NoBlankKey(items) && NoSharedKey(items) && AllFree(t, ns, items) <==>
            NoBlankKey(items[1..]) && NoSharedKey(items[1..]) && AllFree(t1, ns, items[1..])
  {
    hide Normalize;
    var rest := items[1..];
    var t1 := t[(ns, Normalize(items[0].key).value) := items[0].rec];
    if NoBlankKey(rest) && NoSharedKey(rest) && AllFree(t1, ns, rest) {
      forall i, j | 0 <= i < j < |items|
        ensures Normalize(items[i].key) != Normalize(items[j].key)
      {
        assert items[j] == rest[j - 1];
        if i > 0 {
          assert items[i] == rest[i - 1];
        }
      }
      forall i | 0 <= i < |items|
        ensures Normalize(items[i].key).Some? && (ns, Normalize(items[i].key).value) !in t
      {
        if i > 0 {
          assert items[i] == rest[i - 1];
        }
      }
    }
    if NoBlankKey(items) && NoSharedKey(items) && AllFree(t, ns, items) {
      forall i | 0 <= i < |rest|
        ensures Normalize(rest[i].key).Some? && (ns, Normalize(rest[i].key).value) !in t1
      {
        assert rest[i] == items[i + 1];
      }
      assert NoSharedKey(rest);
    }
  }

  lemma {:induction false} InsertResult<V>(t: Table<V>, ns: string, items: seq<Item<V>>)
    requires Insert(t, ns, items).Inserted?
    ensures forall other, key ::
              Lookup(Insert(t, ns, items).table, (other, key))
              == if other == ns && LastWith(items, key).Some? then LastWith(items, key) else Lookup(t, (other, key))
    decreases items
  {
    hide Normalize;
    if items != [] {
      InsertResult(t[(ns, Normalize(items[0].key).value) := items[0].rec], ns, items[1..]);
    }
  }

  // ----- Restoring one namespace -----

  lemma RowsRemoved<V>(t: Table<V>, ns: string)
    ensures forall other, key ::
              Lookup(t - RowsOf(t, ns), (other, key))
              == if other == ns then None else Lookup(t, (other, key))
  {
  }

  lemma FreeAfterRemoval<V>(t: Table<V>, ns: string, items: seq<Item<V>>)
    ensures AllFree(t - RowsOf(t, ns), ns, items)
  {
  }

  /** Outside a transaction, restoring a namespace has the same outcome in both
      stores exactly when no two entries share a trimmed key, or some key is blank. */
  lemma {:induction false} RestoreNamespaceAgrees<V>(n: Namespaces<V>, t: Table<V>, ns: string, items: seq<Item<V>>)
    requires Same(n, t)
    ensures var (n1, rm) := MemoryAt(n, ns, RestoreNamespace(ns, items));
            var (t1, rs) := SqliteAt(t, false, ns, RestoreNamespace(ns, items));
            && ((Fails(rm) <==> Fails(rs)) <==> (NoSharedKey(items) || !NoBlankKey(items)))
            && ((Fails(rm) <==> Fails(rs)) ==> Same(n1, t1) && (rm == rs || (Fails(rm) && Fails(rs))))
  {
    hide NoBlankKey, NoSharedKey, Normalize, RowsOf, LastWith;
    var t0 := t - RowsOf(t, ns);
    CollectResult<V>(items, map[]);
    InsertSucceeds(t0, ns, items);
    FreeAfterRemoval(t, ns, items);
    RowsRemoved(t, ns);
    if Insert(t0, ns, items).Inserted? {
      InsertResult(t0, ns, items);
      var n1, t1 := n[ns := Collect(items, map[]).value], Insert(t0, ns, items).table;
      forall other, key
        ensures SameAt(n1, t1, other, key)
      {
        assert SameAt(n, t, other, key);
      }
    }
  }

  // ----- Restoring everything -----

  // The entries of an object have distinct names.
  predicate DistinctNames<V>(sections: seq<Section<V>>) {
    forall i, j | 0 <= i < j < |sections| :: sections[i].name != sections[j].name
  }

  predicate SomeBlankKey<V>(sections: seq<Section<V>>) {
    exists i | 0 <= i < |sections| :: !NoBlankKey(sections[i].items)
  }

  // Both stores read a section alike: its name is no blank, and is as trimmed as
  // its records need it; its keys stay apart.
  predicate Tidy<V>(s: Section<V>) {
    && Normalize(s.name).Some? && (s.items != [] ==> Normalize(s.name) == Some(s.name))
    && NoSharedKey(s.items)
  }

  lemma {:induction false} CollectAllResult<V>(sections: seq<Section<V>>, acc: Namespaces<V>)
    requires DistinctNames(sections)
    ensures CollectAll(sections, acc).Some? <==> !SomeBlankKey(sections)
    ensures CollectAll(sections, acc).Some? ==>
              forall ns :: ns in CollectAll(sections, acc).value <==> ns in acc || NamesOne(sections, ns)
    ensures CollectAll(sections, acc).Some? ==>
              forall ns, key ::
              MemoryLookup(CollectAll(sections, acc).value, ns, key)
              == if NamesOne(sections, ns) then LastWith(SectionOf(sections, ns).items, key) else MemoryLookup(acc, ns, key)
    decreases sections
  {
    hide Normalize, LastWith, NoBlankKey;
    if sections != [] {
      var s, rest := sections[0], sections[1..];
      CollectResult<V>(s.items, map[]);
      assert sections == [s] + rest;
      if NoBlankKey(s.items) {
        var m := Collect(s.items, map[]).value;
        CollectAllResult(rest, acc[s.name := m]);
        assert !NamesOne(rest, s.name);
      }
    }
  }

  predicate NamesOne<V>(sections: seq<Section<V>>, ns: string) {
    exists i | 0 <= i < |sections| :: sections[i].name == ns
  }

  function SectionOf<V>(sections: seq<Section<V>>, ns: string): (s: Section<V>)
    requires NamesOne(sections, ns)
    ensures s in sections && s.name == ns
  {
    if sections[0].name == ns then sections[0]
    else
      assert NamesOne(sections[1..], ns) by {
        var i :| 0 <= i < |sections| && sections[i].name == ns;
        assert sections[1..][i - 1].name == ns;
      }
      SectionOf(sections[1..], ns)
  }

  // The record all the sections together give a row of the table.
  function LastRow<V>(sections: seq<Section<V>>, ns: string, key: string): Option<Rec<V>> {
    if sections == [] then None
    else if LastRow(sections[1..], ns, key).Some? then LastRow(sections[1..], ns, key)
    else if Normalize(sections[0].name) == Some(ns) then LastWith(sections[0].items, key)
    else None
  }

  lemma {:induction false} InsertAllResult<V>(t: Table<V>, sections: seq<Section<V>>)
    requires InsertAll(t, sections).Inserted?
    ensures forall ns, key ::
              Lookup(InsertAll(t, sections).table, (ns, key))
              == if LastRow(sections, ns, key).Some? then LastRow(sections, ns, key) else Lookup(t, (ns, key))
    decreases sections
  {
    hide Normalize, LastWith;
    if sections != [] {
      var ns := Normalize(sections[0].name).value;
      InsertResult(t, ns, sections[0].items);
      InsertAllResult(Insert(t, ns, sections[0].items).table, sections[1..]);
    }
  }

  // No row of these sections is in the table already.
  ghost predicate RowsFree<V>(t: Table<V>, sections: seq<Section<V>>) {
    forall i | 0 <= i < |sections| && Normalize(sections[i].name).Some? ::
      AllFree(t, Normalize(sections[i].name).value, sections[i].items)
  }

  // Tidy sections with keys go into a table that has none of their rows.
  lemma {:induction false} TidyIsInserted<V>(t: Table<V>, sections: seq<Section<V>>)
    requires DistinctNames(sections) && RowsFree(t, sections)
    requires forall s <- sections :: Tidy(s) && NoBlankKey(s.items)
    ensures InsertAll(t, sections).Inserted?
    decreases sections
  {
    hide Normalize, NoSharedKey, NoBlankKey, AllFree;
    if sections != [] {
      var s, rest := sections[0], sections[1..];
      var ns := Normalize(s.name).value;
      InsertSucceeds(t, ns, s.items);
      var t1 := Insert(t, ns, s.items).table;
      forall i | 0 <= i < |rest| && Normalize(rest[i].name).Some?
        ensures AllFree(t1, Normalize(rest[i].name).value, rest[i].items)
      {
        assert rest[i] == sections[i + 1];
        StaysFree(t, s, rest[i]);
      }
      TidyIsInserted(t1, rest);
    }
  }

  lemma {:induction false} StaysFree<V>(t: Table<V>, s: Section<V>, other: Section<V>)
    requires Tidy(s) && Tidy(other) && s.name != other.name
    requires var r := Insert(t, Normalize(s.name).value, s.items); r.Inserted?
    requires AllFree(t, Normalize(other.name).value, other.items)
    ensures AllFree(Insert(t, Normalize(s.name).value, s.items).table, Normalize(other.name).value, other.items)
  {
    hide Normalize, NoSharedKey, LastWith;
    var ns := Normalize(s.name).value;
    var t1 := Insert(t, ns, s.items).table;
    InsertResult(t, ns, s.items);
    forall i | 0 <= i < |other.items| && Normalize(other.items[i].key).Some?
      ensures (Normalize(other.name).value, Normalize(other.items[i].key).value) !in t1
    {
      var o, key := Normalize(other.name).value, Normalize(other.items[i].key).value;
      assert Lookup(t1, (o, key)) ==
        if o == ns && LastWith(s.items, key).Some? then LastWith(s.items, key) else Lookup(t, (o, key));
      if s.items == [] {
        NothingLast(s.items, key);
      }
    }
  }

  lemma NothingLast<V>(items: seq<Item<V>>, key: string)
    requires items == []
    ensures LastWith(items, key).None?
  {
  }

  // Sections the table accepts have names and keys, and no keys in common within one.
  lemma {:induction false} InsertedIsOrderly<V>(t: Table<V>, sections: seq<Section<V>>)
    requires InsertAll(t, sections).Inserted?
    ensures forall s <- sections :: Normalize(s.name).Some? && NoSharedKey(s.items) && NoBlankKey(s.items)
    decreases sections
  {
    hide Normalize, NoSharedKey, NoBlankKey, AllFree;
    if sections != [] {
      var ns := Normalize(sections[0].name).value;
      InsertSucceeds(t, ns, sections[0].items);
      InsertedIsOrderly(Insert(t, ns, sections[0].items).table, sections[1..]);
    }
  }

  lemma {:induction false} LastRowOfTidy<V>(sections: seq<Section<V>>, ns: string, key: string)
    requires DistinctNames(sections) && forall s <- sections :: Tidy(s)
    ensures LastRow(sections, ns, key) ==
            if NamesOne(sections, ns) then LastWith(SectionOf(sections, ns).items, key) else None
    decreases sections
  {
    hide Normalize, NoSharedKey;
    if sections != [] {
      var s, rest := sections[0], sections[1..];
      LastRowOfTidy(rest, ns, key);
      assert sections == [s] + rest;
      assert s in sections && Tidy(s);
      if s.name == ns {
        assert !NamesOne(rest, ns);
        if s.items == [] {
          NothingLast(s.items, key);
        }
      } else {
        assert NamesOne(sections, ns) <==> NamesOne(rest, ns);
        if NamesOne(sections, ns) {
          assert SectionOf(sections, ns) == SectionOf(rest, ns);
        }
        if s.items == [] {
          NothingLast(s.items, key);
        }
      }
    }
  }

  lemma {:induction false} LastWithThere<V>(items: seq<Item<V>>)
    requires items != [] && NoBlankKey(items)
    ensures LastWith(items, Normalize(items[0].key).value).Some?
  {
  }

  lemma {:induction false} LastRowNormal<V>(sections: seq<Section<V>>, ns: string, key: string)
    requires LastRow(sections, ns, key).Some?
    ensures exists s :: s in sections && Normalize(s.name) == Some(ns)
    decreases sections
  {
    hide Normalize, LastWith;
    if LastRow(sections[1..], ns, key).Some? {
      LastRowNormal(sections[1..], ns, key);
      var s :| s in sections[1..] && Normalize(s.name) == Some(ns);
      assert s in sections;
    } else {
      assert sections[0] in sections;
    }
  }

  lemma {:induction false} NormalizeTwice(name: string, ns: string)
    requires Normalize(name) == Some(ns)
    ensures Normalize(ns) == Some(ns)
  {
    hide TrimStart, TrimEnd;
    TrimmedResult(name);
    TrimKeepsTrimmed(ns);
  }

  /** Outside a transaction, restoring a whole snapshot has the same outcome and
      leaves the same records exactly when every section is tidy, or a key is blank. */
  lemma {:induction false} RestoreAllAgrees<V>(n: Namespaces<V>, t: Table<V>, sections: seq<Section<V>>)
    requires Same(n, t) && DistinctNames(sections)
    ensures var (n1, rm) := MemoryStep(n, RestoreAll(sections));
            var (t1, rs) := SqliteStep(t, false, RestoreAll(sections));
            && (((Fails(rm) <==> Fails(rs)) && Same(n1, t1)) <==>
                (SomeBlankKey(sections) || forall s <- sections :: Tidy(s)))
            && (Fails(rm) <==> SomeBlankKey(sections)) && (Fails(rm) ==> Fails(rs) && n1 == n && t1 == t)
            && (!Fails(rm) ==> rm == Done) && (!Fails(rs) ==> rs == Done)
  {
    hide Tidy, Collect, Insert, InsertAll, CollectAll, Normalize, LastRow, LastWith, NoBlankKey, SomeBlankKey, DistinctNames;
    CollectAllResult<V>(sections, map[]);
    BlankRejects(sections);
    if !SomeBlankKey(sections) {
      if forall s <- sections :: Tidy(s) {
        TidyAgrees(sections);
      } else if InsertAll<V>(map[], sections).Inserted? {
        UntidyDiffers(sections);
      }
    }
  }

  lemma {:induction false} BlankRejects<V>(sections: seq<Section<V>>)
    ensures SomeBlankKey(sections) ==> InsertAll<V>(map[], sections).Rejected?
  {
    if InsertAll<V>(map[], sections).Inserted? {
      InsertedIsOrderly<V>(map[], sections);
    }
  }

  lemma {:induction false} TidyAgrees<V>(sections: seq<Section<V>>)
    requires DistinctNames(sections) && !SomeBlankKey(sections) && forall s <- sections :: Tidy(s)
    ensures InsertAll<V>(map[], sections).Inserted? && CollectAll<V>(sections, map[]).Some?
    ensures Same(CollectAll<V>(sections, map[]).value, InsertAll<V>(map[], sections).table)
  {
    hide Tidy, Collect, Insert, InsertAll, CollectAll, Normalize, LastRow, LastWith, NoBlankKey;
    CollectAllResult<V>(sections, map[]);
    forall s | s in sections ensures NoBlankKey(s.items) {
      var i :| 0 <= i < |sections| && sections[i] == s;
    }
    assert RowsFree<V>(map[], sections);
    TidyIsInserted<V>(map[], sections);
    InsertAllResult<V>(map[], sections);
    var n1, t1 := CollectAll<V>(sections, map[]).value, InsertAll<V>(map[], sections).table;
    forall ns, key
      ensures SameAt(n1, t1, ns, key)
    {
      LastRowOfTidy(sections, ns, key);
    }
  }

  lemma {:induction false} UntidyDiffers<V>(sections: seq<Section<V>>)
    requires DistinctNames(sections) && !SomeBlankKey(sections) && !(forall s <- sections :: Tidy(s))
    requires InsertAll<V>(map[], sections).Inserted? && CollectAll<V>(sections, map[]).Some?
    ensures !Same(CollectAll<V>(sections, map[]).value, InsertAll<V>(map[], sections).table)
  {
    hide Collect, Insert, InsertAll, CollectAll, Normalize, LastRow, LastWith, NoSharedKey;
    CollectAllResult<V>(sections, map[]);
    InsertAllResult<V>(map[], sections);
    InsertedIsOrderly<V>(map[], sections);
    var n1, t1 := CollectAll<V>(sections, map[]).value, InsertAll<V>(map[], sections).table;
    var i :| 0 <= i < |sections| && !Tidy(sections[i]);
    var s := sections[i];
    assert s in sections;
    var key := Normalize(s.items[0].key).value;
    LastWithThere(s.items);
    OnlySection(sections, i);
    assert MemoryLookup(n1, s.name, key).Some?;
    if Lookup(t1, (s.name, key)).Some? {
      LastRowNormal(sections, s.name, key);
      var other :| other in sections && Normalize(other.name) == Some(s.name);
      NormalizeTwice(other.name, s.name);
    }
    assert !SameAt(n1, t1, s.name, key);
  }

  lemma {:induction false} OnlySection<V>(sections: seq<Section<V>>, i: nat)
    requires DistinctNames(sections) && i < |sections|
    ensures NamesOne(sections, sections[i].name) && SectionOf(sections, sections[i].name) == sections[i]
  {
  }

  // ----- One operation -----

  lemma {:induction false} EnsureSame<V>(n: Namespaces<V>, t: Table<V>, ns: string)
    requires Same(n, t)
    ensures Same(Ensure(n, ns), t) && ns in Ensure(n, ns)
    ensures forall key :: Lookup(Ensure(n, ns)[ns], key) == Lookup(t, (ns, key))
  {
    forall other, key
      ensures SameAt(Ensure(n, ns), t, other, key)
    {
      assert SameAt(n, t, other, key);
    }
    forall key
      ensures Lookup(Ensure(n, ns)[ns], key) == Lookup(t, (ns, key))
    {
      assert SameAt(Ensure(n, ns), t, ns, key);
    }
  }

  lemma {:induction false} WriteAgrees<V>(
    n: Namespaces<V>, t: Table<V>, ns: string, key: string, updater: Option<V> -> V, now: int
  )
    requires Same(n, t) && ns in n
    ensures var (n1, rm) := MemoryWrite(n, ns, key, updater, now);
            var (t1, rs) := SqliteWrite(t, ns, key, updater, now);
            Same(n1, t1) && rm == rs
  {
    hide Normalize, Written;
    if Normalize(key).Some? {
      var k := Normalize(key).value;
      assert SameAt(n, t, ns, k);
      var n1, t1 := MemoryWrite(n, ns, key, updater, now).0, SqliteWrite(t, ns, key, updater, now).0;
      forall other, other' ensures SameAt(n1, t1, other, other') {
        assert SameAt(n, t, other, other');
      }
    }
  }

  lemma {:induction false} RemoveAgrees<V>(n: Namespaces<V>, t: Table<V>, ns: string, k: string)
    requires Same(n, t)
    ensures ns in n ==> Same(n[ns := n[ns] - {k}], t - {(ns, k)}) && (k in n[ns] <==> (ns, k) in t)
    ensures ns !in n ==> t - {(ns, k)} == t && (ns, k) !in t
  {
    assert SameAt(n, t, ns, k);
    if ns in n {
      var n1, t1 := n[ns := n[ns] - {k}], t - {(ns, k)};
      forall other, other'
        ensures SameAt(n1, t1, other, other')
      {
        assert SameAt(n, t, other, other');
      }
    }
  }

  lemma {:induction false} EmptyingAgrees<V>(n: Namespaces<V>, t: Table<V>, ns: string)
    requires Same(n, t)
    ensures Same(n[ns := map[]], t - RowsOf(t, ns)) && Same(n - {ns}, t - RowsOf(t, ns))
  {
    hide RowsOf;
    RowsRemoved(t, ns);
    var cleared, removed, t1 := n[ns := map[]], n - {ns}, t - RowsOf(t, ns);
    forall other, key
      ensures SameAt(cleared, t1, other, key) && SameAt(removed, t1, other, key)
    {
      assert SameAt(n, t, other, key);
    }
  }

  /** The table knows a namespace exactly when the maps hold a record in it. */
  lemma {:induction false} NamespaceFlags<V>(n: Namespaces<V>, t: Table<V>, ns: string)
    requires Same(n, t)
    ensures RowsOf(t, ns) != {} <==> ns in n && n[ns] != map[]
  {
    if ns in n && n[ns] != map[] {
      var key :| key in n[ns];
      assert SameAt(n, t, ns, key);
      assert (ns, key) in RowsOf(t, ns);
    }
    if RowsOf(t, ns) != {} {
      var row :| row in RowsOf(t, ns);
      assert row == (ns, row.1);
      assert SameAt(n, t, ns, row.1);
    }
  }

  /** Removing a record answers alike unless the key is blank and memory has no
      such namespace: memory then says there was nothing, before looking at the key. */
  lemma {:induction false} DeleteAgrees<V>(n: Namespaces<V>, t: Table<V>, ns: string, key: string)
    requires Same(n, t)
    ensures var (n1, rm) := MemoryAt(n, ns, Delete(ns, key));
            var (t1, rs) := SqliteAt(t, false, ns, Delete(ns, key));
            Same(n1, t1) && (rm == rs <==> Normalize(key).Some? || ns in n)
  {
    hide Normalize;
    if Normalize(key).Some? {
      RemoveAgrees(n, t, ns, Normalize(key).value);
    }
  }

  /** Inside a transaction the table refuses what needs a transaction of its own;
      memory never does. */
  lemma NestingDiffers<V>(n: Namespaces<V>, t: Table<V>, op: Op<V>)
    requires op.Transaction? || op.RestoreAll? || (op.RestoreNamespace? && Normalize(op.ns).Some?)
    ensures SqliteStep(t, true, op) == (t, NestedTransaction)
    ensures MemoryStep(n, op).1 != NestedTransaction
  {
  }

  // Operations the two stores answer alike, by the conditions above.
  ghost predicate OpFits<V>(op: Op<V>, open: bool)
    decreases op, 0
  {
    match op
    case Delete(_, key) => Normalize(key).Some?
    case RestoreNamespace(_, items) => !open && (NoSharedKey(items) || !NoBlankKey(items))
    case RestoreAll(sections) =>
      !open && DistinctNames(sections) && (SomeBlankKey(sections) || forall s <- sections :: Tidy(s))
    case Transaction(body, _) => !open && OpsFit(body, true)
    case _ => true
  }

  ghost predicate OpsFit<V>(ops: seq<Op<V>>, open: bool)
    decreases ops, 1
  {
    forall op <- ops :: OpFits(op, open)
  }

  // The same answer; a namespace flag may be set in memory alone.
  ghost predicate ReplyAgrees<V>(op: Op<V>, rm: Reply<V>, rs: Reply<V>)
    decreases op, 0
  {
    match op
    case Transaction(body, _) =>
      rm.Ran? && rs.Ran? && rm.committed == rs.committed && RepliesAgree(body, rm.replies, rs.replies)
    case HasNamespace(_) => rm == rs || (rm == Flag(true) && rs == Flag(false))
    case DeleteNamespace(_) => rm == rs || (rm == Flag(true) && rs == Flag(false))
    case RestoreNamespace(_, _) => rm == rs || (Fails(rm) && Fails(rs))
    case RestoreAll(_) => rm == rs || (Fails(rm) && Fails(rs))
    case _ => rm == rs
  }

  ghost predicate RepliesAgree<V>(ops: seq<Op<V>>, rms: seq<Reply<V>>, rss: seq<Reply<V>>)
    decreases ops, 1
  {
    && |rms| == |ops| && |rss| == |ops|
    && forall i | 0 <= i < |ops| :: ReplyAgrees(ops[i], rms[i], rss[i])
  }

  lemma {:induction false} StepAgreesAt<V>(n: Namespaces<V>, t: Table<V>, open: bool, ns: string, op: Op<V>)
    requires Same(n, t) && OpFits(op, open) && !op.ClearAll? && !op.RestoreAll? && !op.Transaction?
    ensures Same(MemoryAt(n, ns, op).0, SqliteAt(t, open, ns, op).0)
    ensures ReplyAgrees(op, MemoryAt(n, ns, op).1, SqliteAt(t, open, ns, op).1)
  {
    hide Same, Normalize, RowsOf, Ensure, MemoryWrite, SqliteWrite, Collect, Insert, NoSharedKey, NoBlankKey;
    EnsureSame(n, t, ns);
    match op
    case Get(_, key) =>
      if Normalize(key).Some? {
        assert Lookup(Ensure(n, ns)[ns], Normalize(key).value) == Lookup(t, (ns, Normalize(key).value));
      }
    case Has(_, key) =>
      if Normalize(key).Some? {
        assert Lookup(Ensure(n, ns)[ns], Normalize(key).value) == Lookup(t, (ns, Normalize(key).value));
      }
    case Set(_, key, value, now) => WriteAgrees(Ensure(n, ns), t, ns, key, _ => value, now);
    case Update(_, key, updater, now) => WriteAgrees(Ensure(n, ns), t, ns, key, updater, now);
    case Delete(_, key) => DeleteAgrees(n, t, ns, key);
    case Clear(_) => EmptyingAgrees(n, t, ns);
    case HasNamespace(_) => NamespaceFlags(n, t, ns);
    case DeleteNamespace(_) => EmptyingAgrees(n, t, ns); NamespaceFlags(n, t, ns);
    case RestoreNamespace(_, items) => RestoreNamespaceAgrees(n, t, ns, items);
    case Open(_) =>
  }

  lemma {:induction false} StepAgrees<V>(n: Namespaces<V>, t: Table<V>, open: bool, op: Op<V>)
    requires Same(n, t) && OpFits(op, open)
    ensures Same(MemoryStep(n, op).0, SqliteStep(t, open, op).0)
    ensures ReplyAgrees(op, MemoryStep(n, op).1, SqliteStep(t, open, op).1)
    decreases op, 0
  {
    hide MemoryAt, SqliteAt, Normalize, Same, CollectAll, InsertAll, SomeBlankKey, Tidy, DistinctNames;
    match op
    case ClearAll => NothingAgrees<V>();
    case RestoreAll(sections) => RestoreAllAgrees(n, t, sections);
    case Transaction(body, commits) => RunsAgree(n, t, true, body);
    case _ =>
      if Normalize(op.ns).Some? {
        StepAgreesAt(n, t, open, Normalize(op.ns).value, op);
      }
  }

  lemma NothingAgrees<V>()
    ensures Same<V>(map[], map[])
  {
  }

  /** Any sequence of fitting operations, with transactions that commit or do not:
      the same answers, and the same records with version and times. */
  lemma {:induction false} RunsAgree<V>(n: Namespaces<V>, t: Table<V>, open: bool, ops: seq<Op<V>>)
    requires Same(n, t) && OpsFit(ops, open)
    ensures Same(MemoryRun(n, ops).0, SqliteRun(t, open, ops).0)
    ensures RepliesAgree(ops, MemoryRun(n, ops).1, SqliteRun(t, open, ops).1)
    decreases ops, 1
  {
    hide MemoryStep, SqliteStep, Same, OpFits, ReplyAgrees;
    if ops != [] {
      StepAgrees(n, t, open, ops[0]);
      var n1, t1 := MemoryStep(n, ops[0]).0, SqliteStep(t, open, ops[0]).0;
      RunsAgree(n1, t1, open, ops[1..]);
    }
  }

  /** From empty stores on. */
  lemma {:induction false} StoresAgree<V>(ops: seq<Op<V>>)
    requires OpsFit(ops, false)
    ensures Same(MemoryRun(map[], ops).0, SqliteRun(map[], false, ops).0)
    ensures RepliesAgree(ops, MemoryRun(map[], ops).1, SqliteRun(map[], false, ops).1)
  {
    NothingAgrees<V>();
    RunsAgree<V>(map[], map[], false, ops);
  }
}
