/**
 The stores as the source keeps them: a map of maps that its methods change in
 place and swap on commit, and a table under BEGIN, COMMIT and ROLLBACK. Each
 method is proved to be the operation of the model.
 */
module StorageClasses {

  import opened Options
  import opened Strings
  import opened StorageModel

  class MemoryStorage<!V> {
    var namespaces: Namespaces<V>

    constructor (namespaces: Namespaces<V>)
      ensures this.namespaces == namespaces
    {
      this.namespaces := namespaces;
    }

    // `getMemoryNamespaceState` on a normalized name.
    method NamespaceState(name: string) returns (state: map<string, Rec<V>>)
      modifies this
      ensures namespaces == Ensure(old(namespaces), name) && state == namespaces[name]
    {
      if name !in namespaces {
        namespaces := namespaces[name := map[]];
      }
      state := namespaces[name];
    }

    method ReadRecord(name: string, key: string) returns (r: Reply<V>)
      modifies this
      ensures (namespaces, r) == MemoryAt(old(namespaces), name, Get(name, key))
    {
      var state := NamespaceState(name);
      var normalizedKey := Normalize(key);
      if normalizedKey.None? {
        return InvalidName;
      }
      var record := Lookup(state, normalizedKey.value);
      r := Found(ValueOf(record));
    }

    method HasRecord(name: string, key: string) returns (r: Reply<V>)
      modifies this
      ensures (namespaces, r) == MemoryAt(old(namespaces), name, Has(name, key))
    {
      var state := NamespaceState(name);
      var normalizedKey := Normalize(key);
      if normalizedKey.None? {
        return InvalidName;
      }
      r := Flag(normalizedKey.value in state);
    }

    method WriteRecord(name: string, key: string, updater: Option<V> -> V, now: int) returns (r: Reply<V>)
      modifies this
      ensures (namespaces, r) == MemoryWrite(Ensure(old(namespaces), name), name, key, updater, now)
    {
      var state := NamespaceState(name);
      var normalizedKey := Normalize(key);
      if normalizedKey.None? {
        return InvalidName;
      }
      var k := normalizedKey.value;
      var previous := Lookup(state, k);
      var value := updater(ValueOf(previous));
      var stored := if previous.Some?
        then Rec(value, previous.value.version + 1, previous.value.createdAt, now)
        else Rec(value, 1, now, now);
      namespaces := namespaces[name := state[k := stored]];
      r := Stored(k, stored);
    }

    method RemoveRecord(name: string, key: string) returns (r: Reply<V>)
      modifies this
      ensures (namespaces, r) == MemoryAt(old(namespaces), name, Delete(name, key))
    {
      if name !in namespaces {
        return Flag(false);
      }
      var normalizedKey := Normalize(key);
      if normalizedKey.None? {
        return InvalidName;
      }
      var present := normalizedKey.value in namespaces[name];
      namespaces := namespaces[name := namespaces[name] - {normalizedKey.value}];
      r := Flag(present);
    }

    method ClearNamespace(name: string)
      modifies this
      ensures (namespaces, Done) == MemoryAt(old(namespaces), name, Clear(name))
    {
      var state := NamespaceState(name);
      namespaces := namespaces[name := map[]];
      assert namespaces == old(namespaces)[name := map[]];
    }

    method RemoveNamespace(name: string) returns (r: Reply<V>)
      modifies this
      ensures (namespaces, r) == MemoryAt(old(namespaces), name, DeleteNamespace(name))
    {
      r := Flag(name in namespaces);
      namespaces := namespaces - {name};
    }

    // `restoreNamespace`: the entries, by trimmed key.
    method Collected(items: seq<Item<V>>) returns (state: Option<map<string, Rec<V>>>)
      ensures state == Collect(items, map[])
    {
      var built: map<string, Rec<V>> := map[];
      var i := 0;
      while i < |items|
        invariant 0 <= i <= |items|
        invariant Collect(items, map[]) == Collect(items[i..], built)
      {
        assert items[i..][1..] == items[i + 1..];
        var key := Normalize(items[i].key);
        if key.None? {
          return None;
        }
        built := built[key.value := items[i].rec];
        i := i + 1;
      }
      return Some(built);
    }

    method RestoreSection(name: string, items: seq<Item<V>>) returns (r: Reply<V>)
      modifies this
      ensures (namespaces, r) == MemoryAt(old(namespaces), name, RestoreNamespace(name, items))
    {
      var state := Collected(items);
      if state.None? {
        return InvalidName;
      }
      namespaces := namespaces[name := state.value];
      r := Done;
    }

    method Restore(sections: seq<Section<V>>) returns (r: Reply<V>)
      modifies this
      ensures (namespaces, r) == MemoryStep(old(namespaces), RestoreAll(sections))
    {
      var restored: Namespaces<V> := map[];
      var i := 0;
      while i < |sections|
        invariant 0 <= i <= |sections| && namespaces == old(namespaces)
        invariant CollectAll(sections, map[]) == CollectAll(sections[i..], restored)
      {
        assert sections[i..][1..] == sections[i + 1..];
        var state := Collected(sections[i].items);
        if state.None? {
          return InvalidName;
        }
        restored := restored[sections[i].name := state.value];
        i := i + 1;
      }
      namespaces := restored;
      r := Done;
    }

    // The callback works on a draft; the draft's maps replace these on commit.
    method Transact(body: seq<Op<V>>, commits: bool) returns (r: Reply<V>)
      modifies this
      ensures (namespaces, r) == MemoryStep(old(namespaces), Transaction(body, commits))
      decreases body, 1
    {
      var draft := new MemoryStorage(namespaces);
      var replies: seq<Reply<V>> := [];
      var i := 0;
      while i < |body|
        invariant 0 <= i <= |body| && namespaces == old(namespaces)
        invariant MemoryRun(namespaces, body).0 == MemoryRun(draft.namespaces, body[i..]).0
        invariant MemoryRun(namespaces, body).1 == replies + MemoryRun(draft.namespaces, body[i..]).1
        modifies draft
      {
        assert body[i..][1..] == body[i + 1..];
        var reply := draft.Apply(body[i]);
        replies := replies + [reply];
        i := i + 1;
      }
      assert body[i..] == [] && replies + [] == replies;
      if commits {
        namespaces := draft.namespaces;
      }
      r := Ran(replies, commits);
    }

    // One request: the name is normalized, then the operation runs.
    method Apply(op: Op<V>) returns (r: Reply<V>)
      modifies this
      ensures (namespaces, r) == MemoryStep(old(namespaces), op)
      decreases op, 0
    {
      hide Normalize, MemoryRun, CollectAll, Collect;
      if op.ClearAll? {
        namespaces := map[];
        return Done;
      } else if op.RestoreAll? {
        r := Restore(op.sections);
        return;
      } else if op.Transaction? {
        r := Transact(op.body, op.commits);
        return;
      }
      var name := Normalize(op.ns);
      if name.None? {
        return InvalidName;
      }
      r := ApplyAt(name.value, op);
    }

    method ApplyAt(name: string, op: Op<V>) returns (r: Reply<V>)
      requires !op.ClearAll? && !op.RestoreAll? && !op.Transaction?
      modifies this
      ensures (namespaces, r) == MemoryAt(old(namespaces), name, op)
    {
      hide Normalize, MemoryWrite, Collect;
      match op {
        case Open(_) => var state := NamespaceState(name); r := Done;
        case Get(_, key) => r := ReadRecord(name, key);
        case Has(_, key) => r := HasRecord(name, key);
        case Set(_, key, value, now) => r := WriteRecord(name, key, _ => value, now);
        case Update(_, key, updater, now) => r := WriteRecord(name, key, updater, now);
        case Delete(_, key) => r := RemoveRecord(name, key);
        case Clear(_) => ClearNamespace(name); r := Done;
        case HasNamespace(_) => r := Flag(name in namespaces);
        case DeleteNamespace(_) => r := RemoveNamespace(name);
        case RestoreNamespace(_, items) => r := RestoreSection(name, items);
      }
    }
  }

  class SqliteStorage<!V> {
    var records: Table<V>
    // The table as it was at BEGIN, while a transaction is open.
    var saved: Option<Table<V>>

    constructor ()
      ensures records == map[] && saved == None
    {
      records, saved := map[], None;
    }

    // BEGIN IMMEDIATE throws inside a transaction.
    method Begin() returns (ok: bool)
      modifies this`saved
      ensures ok == old(saved).None?
      ensures saved == if ok then Some(records) else old(saved)
    {
      ok := saved.None?;
      if ok {
        saved := Some(records);
      }
    }

    method Commit()
      requires saved.Some?
      modifies this`saved
      ensures saved == None
    {
      saved := None;
    }

    method Rollback()
      requires saved.Some?
      modifies this
      ensures saved == None && records == old(saved).value
    {
      records, saved := saved.value, None;
    }

    method WriteRecord(name: string, key: string, updater: Option<V> -> V, now: int) returns (r: Reply<V>)
      modifies this`records
      ensures (records, r) == SqliteWrite(old(records), name, key, updater, now)
    {
      var normalizedKey := Normalize(key);
      if normalizedKey.None? {
        return InvalidName;
      }
      var k := (name, normalizedKey.value);
      var existing := Lookup(records, k);
      var value := updater(ValueOf(existing));
      if existing.Some? {
        records := records[k := Rec(value, existing.value.version + 1, existing.value.createdAt, now)];
      } else {
        records := records[k := Rec(value, 1, now, now)];
      }
      r := Stored(k.1, records[k]);
    }

    // INSERT, row by row; false when a row violates the key or has no name.
    method InsertRows(name: string, items: seq<Item<V>>) returns (r: Reply<V>)
      modifies this`records
      ensures match Insert(old(records), name, items)
              case Inserted(t) => records == t && r == Done
              case Rejected(reply) => r == reply
    {
      var i := 0;
      while i < |items|
        invariant 0 <= i <= |items|
        invariant Insert(old(records), name, items) == Insert(records, name, items[i..])
      {
        assert items[i..][1..] == items[i + 1..];
        var key := Normalize(items[i].key);
        if key.None? {
          return InvalidName;
        }
        if (name, key.value) in records {
          return Conflict;
        }
        records := records[(name, key.value) := items[i].rec];
        i := i + 1;
      }
      r := Done;
    }

    method RestoreSection(name: string, items: seq<Item<V>>) returns (r: Reply<V>)
      modifies this
      ensures (records, r) == SqliteAt(old(records), old(saved).Some?, name, RestoreNamespace(name, items))
      ensures saved == old(saved)
    {
      hide Normalize, Insert;
      var ok := Begin();
      if !ok {
        return NestedTransaction;
      }
      records := records - RowsOf(records, name);
      r := InsertRows(name, items);
      if r != Done {
        Rollback();
      } else {
        Commit();
      }
    }

    method Restore(sections: seq<Section<V>>) returns (r: Reply<V>)
      modifies this
      ensures (records, r) == SqliteStep(old(records), old(saved).Some?, RestoreAll(sections))
      ensures saved == old(saved)
    {
      hide Normalize, Insert;
      var ok := Begin();
      if !ok {
        return NestedTransaction;
      }
      records := map[];
      var i := 0;
      while i < |sections|
        invariant 0 <= i <= |sections| && saved == Some(old(records))
        invariant InsertAll(map[], sections) == InsertAll(records, sections[i..])
      {
        assert sections[i..][1..] == sections[i + 1..];
        var name := Normalize(sections[i].name);
        if name.None? {
          Rollback();
          return InvalidName;
        }
        r := InsertRows(name.value, sections[i].items);
        if r != Done {
          Rollback();
          return;
        }
        i := i + 1;
      }
      Commit();
      r := Done;
    }

    method Transact(body: seq<Op<V>>, commits: bool) returns (r: Reply<V>)
      modifies this
      ensures (records, r) == SqliteStep(old(records), old(saved).Some?, Transaction(body, commits))
      ensures saved == old(saved)
      decreases body, 1
    {
      var ok := Begin();
      if !ok {
        return NestedTransaction;
      }
      var replies: seq<Reply<V>> := [];
      var i := 0;
      while i < |body|
        invariant 0 <= i <= |body| && saved == Some(old(records))
        invariant SqliteRun(old(records), true, body).0 == SqliteRun(records, true, body[i..]).0
        invariant SqliteRun(old(records), true, body).1 == replies + SqliteRun(records, true, body[i..]).1
      {
        assert body[i..][1..] == body[i + 1..];
        var reply := Apply(body[i]);
        replies := replies + [reply];
        i := i + 1;
      }
      assert body[i..] == [] && replies + [] == replies;
      if commits {
        Commit();
      } else {
        Rollback();
      }
      r := Ran(replies, commits);
    }

    method Apply(op: Op<V>) returns (r: Reply<V>)
      modifies this
      ensures (records, r) == SqliteStep(old(records), old(saved).Some?, op)
      ensures saved == old(saved)
      decreases op, 0
    {
      hide Normalize, SqliteRun, InsertAll, Insert;
      if op.ClearAll? {
        records := map[];
        return Done;
      } else if op.RestoreAll? {
        r := Restore(op.sections);
        return;
      } else if op.Transaction? {
        r := Transact(op.body, op.commits);
        return;
      }
      var name := Normalize(op.ns);
      if name.None? {
        return InvalidName;
      }
      r := ApplyAt(name.value, op);
    }

    method ApplyAt(name: string, op: Op<V>) returns (r: Reply<V>)
      requires !op.ClearAll? && !op.RestoreAll? && !op.Transaction?
      modifies this
      ensures (records, r) == SqliteAt(old(records), old(saved).Some?, name, op)
      ensures saved == old(saved)
    {
      hide Normalize, SqliteWrite, Insert;
      match op {
        case Open(_) => r := Done;
        case Get(_, key) =>
          var k := Normalize(key);
          r := if k.None? then InvalidName else Found(ValueOf(Lookup(records, (name, k.value))));
        case Has(_, key) =>
          var k := Normalize(key);
          r := if k.None? then InvalidName else Flag((name, k.value) in records);
        case Set(_, key, value, now) => r := WriteRecord(name, key, _ => value, now);
        case Update(_, key, updater, now) => r := WriteRecord(name, key, updater, now);
        case Delete(_, key) =>
          var k := Normalize(key);
          if k.None? {
            return InvalidName;
          }
          r := Flag((name, k.value) in records);
          records := records - {(name, k.value)};
        case Clear(_) =>
          records := records - RowsOf(records, name);
          r := Done;
        case HasNamespace(_) => r := Flag(RowsOf(records, name) != {});
        case DeleteNamespace(_) =>
          r := Flag(RowsOf(records, name) != {});
          records := records - RowsOf(records, name);
        case RestoreNamespace(_, items) => r := RestoreSection(name, items);
      }
    }
  }
}
