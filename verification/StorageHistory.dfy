/**
 What a store holds, told from the history of what was asked of it: of each key
 the last value written, how often it was written since it came to be, and when.
 */
module StorageHistory {

  import opened Options
  import opened Strings
  import opened StorageModel
  import opened StorageAgreement

  // ----- The history of one key -----

  datatype Write<!V> = Write(updater: Option<V> -> V, now: int)

  // What an operation does to the record of one key.
  datatype Effect<!V> = Keeps | Writes(write: Write<V>) | Removes | Restores(rec: Option<Rec<V>>)

  // The writes since the record was last removed or restored, and what it was then.
  datatype Life<!V> = Life(base: Option<Rec<V>>, writes: seq<Write<V>>)

  ghost function LifeOf<V>(base: Option<Rec<V>>, effects: seq<Effect<V>>): Life<V>
    decreases |effects|
  {
    if |effects| == 0 then Life(base, [])
    else
      var life := LifeOf(base, effects[..|effects| - 1]);
      match effects[|effects| - 1]
      case Keeps => life
      case Writes(w) => life.(writes := life.writes + [w])
      case Removes => Life(None, [])
      case Restores(rec) => Life(rec, [])
  }

  // Each updater is asked with the value before it.
  ghost function ValueAfter<V>(before: Option<V>, writes: seq<Write<V>>): (r: Option<V>)
    ensures |writes| > 0 ==> r.Some?
    decreases |writes|
  {
    if |writes| == 0 then before
    else Some(writes[|writes| - 1].updater(ValueAfter(before, writes[..|writes| - 1])))
  }

  // The version counts the writes, the record is as old as the first one and as
  // new as the last.
  ghost function RecordOf<V>(life: Life<V>): Option<Rec<V>> {
    var n := |life.writes|;
    if n == 0 then life.base
    else
      var before := if life.base.Some? then Some(life.base.value.value) else None;
      var value := ValueAfter(before, life.writes).value;
      if life.base.Some? then Some(Rec(value, life.base.value.version + n, life.base.value.createdAt, life.writes[n - 1].now))
      else Some(Rec(value, n, life.writes[0].now, life.writes[n - 1].now))
  }

  ghost function After<V>(base: Option<Rec<V>>, effects: seq<Effect<V>>): Option<Rec<V>> {
    RecordOf(LifeOf(base, effects))
  }

  // A name as a caller writes it stands for its trimmed form, unless it is blank.
  predicate Names(name: string, as_: string) {
    Trim(name) == as_ && as_ != ""
  }

  lemma NamesIsNormal(name: string, as_: string)
    ensures Normalize(name) == Some(as_) <==> Names(name, as_)
  {
  }

  // ----- The effects of operations -----

  // What one operation does to a key. `trims` says whether the store trims the names of
  // the namespaces in a whole snapshot.
  ghost function OwnEffect<V>(op: Op<V>, reply: Reply<V>, ns: string, key: string, trims: bool): Effect<V>
    requires !op.Transaction?
  {
    match op
    case Set(n, k, value, now) => if Names(n, ns) && Names(k, key) then Writes(Write(_ => value, now)) else Keeps
    case Update(n, k, updater, now) => if Names(n, ns) && Names(k, key) then Writes(Write(updater, now)) else Keeps
    case Delete(n, k) => if Names(n, ns) && Names(k, key) then Removes else Keeps
    case Clear(n) => if Names(n, ns) then Removes else Keeps
    case DeleteNamespace(n) => if Names(n, ns) then Removes else Keeps
    case ClearAll => Removes
    case RestoreNamespace(n, items) =>
      if Names(n, ns) && reply.Done? then Restores(LastWith(items, key)) else Keeps
    case RestoreAll(sections) =>
      if !reply.Done? then Keeps
      else if trims then Restores(LastRow(sections, ns, key))
      else Restores(if NamesOne(sections, ns) then LastWith(SectionOf(sections, ns).items, key) else None)
    case _ => Keeps
  }

  // A transaction does what its body does, if it is carried out and committed.
  ghost function Effects<V>(op: Op<V>, reply: Reply<V>, ns: string, key: string, trims: bool): seq<Effect<V>>
    decreases op, 0
  {
    if op.Transaction? then
      if reply.Ran? && op.commits then AllEffects(op.body, reply.replies, ns, key, trims) else []
    else [OwnEffect(op, reply, ns, key, trims)]
  }

  ghost function AllEffects<V>(ops: seq<Op<V>>, replies: seq<Reply<V>>, ns: string, key: string, trims: bool)
    : seq<Effect<V>>
    decreases ops, 1
  {
    if |ops| == 0 || |replies| == 0 then []
    else Effects(ops[0], replies[0], ns, key, trims) + AllEffects(ops[1..], replies[1..], ns, key, trims)
  }

  // ----- Effects one after the other -----

  lemma {:induction false} LifeAppend<V>(base: Option<Rec<V>>, first: seq<Effect<V>>, second: seq<Effect<V>>)
    ensures After(base, first + second) == After(After(base, first), second)
    decreases |second|
  {
    if |second| == 0 {
      assert first + second == first;
    } else {
      var front, last := second[..|second| - 1], second[|second| - 1];
      LifeAppend(base, first, front);
      assert (first + second)[..|first + second| - 1] == first + front;
      OneMore(base, first + front, last);
      OneMore(After(base, first), front, last);
      assert front + [last] == second && first + front + [last] == first + second;
    }
  }

  // The record after one more effect, told from the record before it.
  ghost function Next<V>(rec: Option<Rec<V>>, e: Effect<V>): Option<Rec<V>> {
    match e
    case Keeps => rec
    case Writes(w) => RecordOf(Life(rec, [w]))
    case Removes => None
    case Restores(r) => r
  }

  lemma {:induction false} OneWrite<V>(before: Option<V>, w: Write<V>)
    ensures ValueAfter(before, [w]) == Some(w.updater(before))
  {
    assert [w][..0] == [];
    assert ValueAfter(before, [w][..0]) == before;
  }

  lemma {:induction false} LastWrite<V>(before: Option<V>, writes: seq<Write<V>>, w: Write<V>)
    ensures ValueAfter(before, writes + [w]) == Some(w.updater(ValueAfter(before, writes)))
  {
    assert (writes + [w])[..|writes|] == writes;
  }

  lemma {:induction false} WriteMore<V>(base: Option<Rec<V>>, writes: seq<Write<V>>, w: Write<V>)
    ensures RecordOf(Life(base, writes + [w])) == RecordOf(Life(RecordOf(Life(base, writes)), [w]))
  {
    hide ValueAfter;
    var before := ValueOf(base);
    LastWrite(before, writes, w);
    OneWrite(ValueOf(RecordOf(Life(base, writes))), w);
    NoWrite(before);
    assert (writes + [w])[|writes|] == w;
    if |writes| > 0 {
      assert (writes + [w])[0] == writes[0];
    } else {
      assert writes == [] && writes + [w] == [w];
    }
  }

  lemma NoWrite<V>(before: Option<V>)
    ensures ValueAfter(before, []) == before
  {
  }

  lemma {:induction false} OneMore<V>(base: Option<Rec<V>>, effects: seq<Effect<V>>, e: Effect<V>)
    ensures After(base, effects + [e]) == Next(After(base, effects), e)
  {
    hide RecordOf;
    assert (effects + [e])[..|effects|] == effects;
    var life := LifeOf(base, effects);
    match e
    case Keeps =>
    case Writes(w) => WriteMore(life.base, life.writes, w);
    case Removes => NoWrites<V>(None);
    case Restores(r) => NoWrites(r);
  }

  lemma NoWrites<V>(base: Option<Rec<V>>)
    ensures RecordOf(Life(base, [])) == base
  {
  }

  // A write as the stores do it.
  lemma {:induction false} WrittenIsNext<V>(previous: Option<Rec<V>>, updater: Option<V> -> V, now: int)
    ensures Some(Written(previous, updater(ValueOf(previous)), now)) == Next(previous, Writes(Write(updater, now)))
  {
    OneWrite(ValueOf(previous), Write(updater, now));
  }

  // ----- The nested maps -----

  // The sections of a snapshot are the entries of an object.
  ghost predicate Formed<V>(op: Op<V>)
    decreases op, 0
  {
    match op
    case RestoreAll(sections) => DistinctNames(sections)
    case Transaction(body, _) => AllFormed(body)
    case _ => true
  }

  ghost predicate AllFormed<V>(ops: seq<Op<V>>)
    decreases ops, 1
  {
    forall op <- ops :: Formed(op)
  }

  lemma {:induction false} MemoryWriteEffect<V>(
    n: Namespaces<V>, n0: string, k0: string, updater: Option<V> -> V, now: int, ns: string, key: string
  )
    requires Normalize(n0).Some?
    ensures var at := Normalize(n0).value;
            var n1 := MemoryWrite(Ensure(n, at), at, k0, updater, now).0;
            MemoryLookup(n1, ns, key) ==
            if Names(n0, ns) && Names(k0, key) then Next(MemoryLookup(n, ns, key), Writes(Write(updater, now)))
            else MemoryLookup(n, ns, key)
  {
    hide Written, RecordOf, Normalize, Names;
    NamesIsNormal(n0, ns);
    NamesIsNormal(k0, key);
    WrittenIsNext(MemoryLookup(n, ns, key), updater, now);
  }

  lemma {:induction false} MemoryStepEffect<V>(n: Namespaces<V>, op: Op<V>, ns: string, key: string)
    requires !op.Transaction? && Formed(op)
    ensures var (n1, reply) := MemoryStep(n, op);
            MemoryLookup(n1, ns, key) == Next(MemoryLookup(n, ns, key), OwnEffect(op, reply, ns, key, false))
  {
    hide Written, RecordOf, Normalize, Names, Collect, CollectAll, LastWith, DistinctNames, NoBlankKey, SomeBlankKey,
         MemoryWrite;
    if op.RestoreAll? {
      CollectAllResult<V>(op.sections, map[]);
    } else if !op.ClearAll? {
      NamesIsNormal(op.ns, ns);
      if Normalize(op.ns).Some? {
        MemoryAtEffect(n, op, ns, key);
      }
    }
  }

  lemma {:induction false} MemoryAtEffect<V>(n: Namespaces<V>, op: Op<V>, ns: string, key: string)
    requires !op.ClearAll? && !op.RestoreAll? && !op.Transaction? && Normalize(op.ns).Some?
    ensures var (n1, reply) := MemoryAt(n, Normalize(op.ns).value, op);
            MemoryLookup(n1, ns, key) == Next(MemoryLookup(n, ns, key), OwnEffect(op, reply, ns, key, false))
  {
    hide Written, RecordOf, Normalize, Names, Collect, LastWith, NoBlankKey, MemoryWrite;
    NamesIsNormal(op.ns, ns);
    match op
    case Set(n0, k0, value, now) => MemoryWriteEffect(n, n0, k0, _ => value, now, ns, key);
    case Update(n0, k0, updater, now) => MemoryWriteEffect(n, n0, k0, updater, now, ns, key);
    case Delete(_, k0) => NamesIsNormal(k0, key);
    case RestoreNamespace(_, items) => CollectResult<V>(items, map[]);
    case _ =>
  }

  /** The nested maps: after any operations, transactions included, the record of every
      key is what the history of that key makes it. */
  lemma {:induction false} MemoryHoldsHistory<V>(n: Namespaces<V>, ops: seq<Op<V>>, ns: string, key: string)
    requires AllFormed(ops)
    ensures var (n1, replies) := MemoryRun(n, ops);
            MemoryLookup(n1, ns, key) == After(MemoryLookup(n, ns, key), AllEffects(ops, replies, ns, key, false))
    decreases ops, 1
  {
    hide MemoryStep, After, Formed, MemoryLookup;
    if ops == [] {
      NoEffects(MemoryLookup(n, ns, key));
    } else {
      var (n1, reply) := MemoryStep(n, ops[0]);
      var (n2, replies) := MemoryRun(n1, ops[1..]);
      MemoryOpEffect(n, ops[0], ns, key);
      MemoryHoldsHistory(n1, ops[1..], ns, key);
      var rest := AllEffects(ops[1..], replies, ns, key, false);
      LifeAppend(MemoryLookup(n, ns, key), Effects(ops[0], reply, ns, key, false), rest);
      assert ([reply] + replies)[1..] == replies;
    }
  }

  lemma {:induction false} MemoryOpEffect<V>(n: Namespaces<V>, op: Op<V>, ns: string, key: string)
    requires Formed(op)
    ensures var (n1, reply) := MemoryStep(n, op);
            MemoryLookup(n1, ns, key) == After(MemoryLookup(n, ns, key), Effects(op, reply, ns, key, false))
    decreases op, 0
  {
    hide After, MemoryLookup, MemoryAt, CollectAll, OwnEffect, Next;
    if op.Transaction? {
      MemoryHoldsHistory(n, op.body, ns, key);
      NoEffects(MemoryLookup(n, ns, key));
    } else {
      MemoryStepEffect(n, op, ns, key);
      OneEffect(MemoryLookup(n, ns, key), OwnEffect(op, MemoryStep(n, op).1, ns, key, false));
    }
  }

  lemma NoEffects<V>(rec: Option<Rec<V>>)
    ensures After(rec, []) == rec
  {
  }

  lemma {:induction false} OneEffect<V>(rec: Option<Rec<V>>, e: Effect<V>)
    ensures After(rec, [e]) == Next(rec, e)
  {
    OneMore(rec, [], e);
    NoEffects(rec);
    assert [] + [e] == [e];
  }

  // ----- The table -----

  lemma {:induction false} SqliteWriteEffect<V>(
    t: Table<V>, n0: string, k0: string, updater: Option<V> -> V, now: int, ns: string, key: string
  )
    requires Normalize(n0).Some?
    ensures var t1 := SqliteWrite(t, Normalize(n0).value, k0, updater, now).0;
            Lookup(t1, (ns, key)) ==
            if Names(n0, ns) && Names(k0, key) then Next(Lookup(t, (ns, key)), Writes(Write(updater, now)))
            else Lookup(t, (ns, key))
  {
    hide Written, RecordOf, Normalize, Names;
    NamesIsNormal(n0, ns);
    NamesIsNormal(k0, key);
    WrittenIsNext(Lookup(t, (ns, key)), updater, now);
  }

  lemma {:induction false} SqliteAtEffect<V>(t: Table<V>, open: bool, op: Op<V>, ns: string, key: string)
    requires !op.ClearAll? && !op.RestoreAll? && !op.Transaction? && Normalize(op.ns).Some?
    ensures var (t1, reply) := SqliteAt(t, open, Normalize(op.ns).value, op);
            Lookup(t1, (ns, key)) == Next(Lookup(t, (ns, key)), OwnEffect(op, reply, ns, key, true))
  {
    hide Written, RecordOf, Normalize, Names, Insert, LastWith, SqliteWrite, RowsOf;
    var at := Normalize(op.ns).value;
    NamesIsNormal(op.ns, ns);
    RowsRemoved(t, at);
    match op
    case Set(n0, k0, value, now) => SqliteWriteEffect(t, n0, k0, _ => value, now, ns, key);
    case Update(n0, k0, updater, now) => SqliteWriteEffect(t, n0, k0, updater, now, ns, key);
    case Delete(_, k0) => NamesIsNormal(k0, key);
    case RestoreNamespace(_, items) =>
      if Insert(t - RowsOf(t, at), at, items).Inserted? {
        InsertResult(t - RowsOf(t, at), at, items);
      }
    case _ =>
  }

  lemma {:induction false} SqliteStepEffect<V>(t: Table<V>, open: bool, op: Op<V>, ns: string, key: string)
    requires !op.Transaction?
    ensures var (t1, reply) := SqliteStep(t, open, op);
            Lookup(t1, (ns, key)) == Next(Lookup(t, (ns, key)), OwnEffect(op, reply, ns, key, true))
  {
    hide Written, RecordOf, Normalize, Names, InsertAll, LastRow, SqliteAt;
    if op.RestoreAll? {
      if InsertAll(map[], op.sections).Inserted? {
        InsertAllResult<V>(map[], op.sections);
      }
    } else if !op.ClearAll? {
      NamesIsNormal(op.ns, ns);
      if Normalize(op.ns).Some? {
        SqliteAtEffect(t, open, op, ns, key);
      }
    }
  }

  /** The table: the same. */
  lemma {:induction false} TableHoldsHistory<V>(t: Table<V>, open: bool, ops: seq<Op<V>>, ns: string, key: string)
    ensures var (t1, replies) := SqliteRun(t, open, ops);
            Lookup(t1, (ns, key)) == After(Lookup(t, (ns, key)), AllEffects(ops, replies, ns, key, true))
    decreases ops, 1
  {
    hide SqliteStep, After, Lookup;
    if ops == [] {
      NoEffects(Lookup(t, (ns, key)));
    } else {
      var (t1, reply) := SqliteStep(t, open, ops[0]);
      var (t2, replies) := SqliteRun(t1, open, ops[1..]);
      SqliteOpEffect(t, open, ops[0], ns, key);
      TableHoldsHistory(t1, open, ops[1..], ns, key);
      var rest := AllEffects(ops[1..], replies, ns, key, true);
      LifeAppend(Lookup(t, (ns, key)), Effects(ops[0], reply, ns, key, true), rest);
      assert ([reply] + replies)[1..] == replies;
    }
  }

  lemma {:induction false} SqliteOpEffect<V>(t: Table<V>, open: bool, op: Op<V>, ns: string, key: string)
    ensures var (t1, reply) := SqliteStep(t, open, op);
            Lookup(t1, (ns, key)) == After(Lookup(t, (ns, key)), Effects(op, reply, ns, key, true))
    decreases op, 0
  {
    hide After, Lookup, SqliteAt, InsertAll, OwnEffect, Next;
    if op.Transaction? {
      NoEffects(Lookup(t, (ns, key)));
      if !open {
        TableHoldsHistory(t, true, op.body, ns, key);
      }
    } else {
      SqliteStepEffect(t, open, op, ns, key);
      OneEffect(Lookup(t, (ns, key)), OwnEffect(op, SqliteStep(t, open, op).1, ns, key, true));
    }
  }

  // ----- The answers -----

  // What an operation that names the key answers, when the key holds the record `before`
  // and holds `after` once it is done.
  ghost predicate Tells<V>(op: Op<V>, reply: Reply<V>, key: string, before: Option<Rec<V>>, after: Option<Rec<V>>) {
    match op
    case Get(_, _) => reply == Found(if before.Some? then Some(before.value.value) else None)
    case Has(_, _) => reply == Flag(before.Some?)
    case Delete(_, _) => reply == Flag(before.Some?)
    case Set(_, _, _, _) => after.Some? && reply == Stored(key, after.value)
    case Update(_, _, _, _) => after.Some? && reply == Stored(key, after.value)
    case _ => true
  }

  predicate NamesKey<V>(op: Op<V>, ns: string, key: string) {
    match op
    case Get(n, k) => Names(n, ns) && Names(k, key)
    case Has(n, k) => Names(n, ns) && Names(k, key)
    case Delete(n, k) => Names(n, ns) && Names(k, key)
    case Set(n, k, _, _) => Names(n, ns) && Names(k, key)
    case Update(n, k, _, _) => Names(n, ns) && Names(k, key)
    case _ => false
  }

  lemma {:induction false} MemoryTells<V>(n: Namespaces<V>, op: Op<V>, ns: string, key: string)
    requires NamesKey(op, ns, key)
    ensures var (n1, reply) := MemoryStep(n, op);
            Tells(op, reply, key, MemoryLookup(n, ns, key), MemoryLookup(n1, ns, key))
  {
    hide Written, Normalize, Names;
    NamesIsNormal(op.ns, ns);
    NamesIsNormal(op.key, key);
  }

  lemma {:induction false} SqliteTells<V>(t: Table<V>, open: bool, op: Op<V>, ns: string, key: string)
    requires NamesKey(op, ns, key)
    ensures var (t1, reply) := SqliteStep(t, open, op);
            Tells(op, reply, key, Lookup(t, (ns, key)), Lookup(t1, (ns, key)))
  {
    hide Written, Normalize, Names;
    NamesIsNormal(op.ns, ns);
    NamesIsNormal(op.key, key);
  }

  lemma MemoryNone<V>(n: Namespaces<V>)
    ensures MemoryRun(n, []) == (n, [])
  {
  }

  lemma {:induction false} MemoryFirst<V>(n: Namespaces<V>, op: Op<V>, ops: seq<Op<V>>)
    ensures var (s1, reply) := MemoryStep(n, op);
            MemoryRun(n, [op] + ops) ==
            (MemoryRun(s1, ops).0, [reply] + MemoryRun(s1, ops).1)
  {
    hide MemoryStep;
    assert ([op] + ops)[1..] == ops;
  }

  lemma {:induction false} MemoryPrefix<V>(n: Namespaces<V>, ops: seq<Op<V>>, i: nat)
    requires i < |ops|
    ensures var (n1, replies) := MemoryRun(n, ops[..i]);
            && MemoryRun(n, ops).1[..i] == replies && MemoryRun(n, ops).1[i] == MemoryStep(n1, ops[i]).1
            && MemoryRun(n, ops[..i + 1]).0 == MemoryStep(n1, ops[i]).0
    decreases i
  {
    hide MemoryStep, MemoryRun;
    var s1, reply := MemoryStep(n, ops[0]).0, MemoryStep(n, ops[0]).1;
    MemoryFirst(n, ops[0], ops[1..]);
    assert [ops[0]] + ops[1..] == ops;
    if i == 0 {
      MemoryFirst(n, ops[0], []);
      MemoryNone(n);
      MemoryNone(s1);
      assert ops[..1] == [ops[0]] + [] && ops[..0] == [];
    } else {
      MemoryPrefix(s1, ops[1..], i - 1);
      MemoryFirst(n, ops[0], ops[1..][..i - 1]);
      MemoryFirst(n, ops[0], ops[1..][..i]);
      assert [ops[0]] + ops[1..][..i - 1] == ops[..i] && [ops[0]] + ops[1..][..i] == ops[..i + 1];
    }
  }

  lemma SqliteNone<V>(t: Table<V>, open: bool)
    ensures SqliteRun(t, open, []) == (t, [])
  {
  }

  lemma {:induction false} SqliteFirst<V>(t: Table<V>, open: bool, op: Op<V>, ops: seq<Op<V>>)
    ensures var (s1, reply) := SqliteStep(t, open, op);
            SqliteRun(t, open, [op] + ops) ==
            (SqliteRun(s1, open, ops).0, [reply] + SqliteRun(s1, open, ops).1)
  {
    hide SqliteStep;
    assert ([op] + ops)[1..] == ops;
  }

  lemma {:induction false} TablePrefix<V>(t: Table<V>, open: bool, ops: seq<Op<V>>, i: nat)
    requires i < |ops|
    ensures var (t1, replies) := SqliteRun(t, open, ops[..i]);
            && SqliteRun(t, open, ops).1[..i] == replies && SqliteRun(t, open, ops).1[i] == SqliteStep(t1, open, ops[i]).1
            && SqliteRun(t, open, ops[..i + 1]).0 == SqliteStep(t1, open, ops[i]).0
    decreases i
  {
    hide SqliteStep, SqliteRun;
    var s1, reply := SqliteStep(t, open, ops[0]).0, SqliteStep(t, open, ops[0]).1;
    SqliteFirst(t, open, ops[0], ops[1..]);
    assert [ops[0]] + ops[1..] == ops;
    if i == 0 {
      SqliteFirst(t, open, ops[0], []);
      SqliteNone(t, open);
      SqliteNone(s1, open);
      assert ops[..1] == [ops[0]] + [] && ops[..0] == [];
    } else {
      TablePrefix(s1, open, ops[1..], i - 1);
      SqliteFirst(t, open, ops[0], ops[1..][..i - 1]);
      SqliteFirst(t, open, ops[0], ops[1..][..i]);
      assert [ops[0]] + ops[1..][..i - 1] == ops[..i] && [ops[0]] + ops[1..][..i] == ops[..i + 1];
    }
  }

  lemma {:induction false} EffectsAppend<V>(
    ops: seq<Op<V>>, replies: seq<Reply<V>>, i: nat, ns: string, key: string, trims: bool
  )
    requires i < |ops| == |replies|
    ensures AllEffects(ops[..i + 1], replies[..i + 1], ns, key, trims) ==
            AllEffects(ops[..i], replies[..i], ns, key, trims) + Effects(ops[i], replies[i], ns, key, trims)
    decreases i
  {
    hide Effects;
    if i == 0 {
      var own := Effects(ops[0], replies[0], ns, key, trims);
      assert ops[..1][1..] == [] && replies[..1][1..] == [];
      assert AllEffects(ops[..1], replies[..1], ns, key, trims) == own + [];
      assert own + [] == own && [] + own == own;
    } else {
      EffectsAppend(ops[1..], replies[1..], i - 1, ns, key, trims);
      assert ops[..i + 1][1..] == ops[1..][..i] && ops[..i][1..] == ops[1..][..i - 1];
      assert replies[..i + 1][1..] == replies[1..][..i] && replies[..i][1..] == replies[1..][..i - 1];
    }
  }

  /** Every answer of the nested maps about a key is told from the key's history. */
  lemma {:induction false} MemoryAnswersHistory<V>(n: Namespaces<V>, ops: seq<Op<V>>, i: nat, ns: string, key: string)
    requires AllFormed(ops) && i < |ops| && NamesKey(ops[i], ns, key)
    ensures var replies := MemoryRun(n, ops).1;
            var before := After(MemoryLookup(n, ns, key), AllEffects(ops[..i], replies[..i], ns, key, false));
            Tells(ops[i], replies[i], key, before, After(before, Effects(ops[i], replies[i], ns, key, false)))
  {
    hide MemoryStep, After, Tells, Formed, NamesKey, MemoryLookup;
    MemoryPrefix(n, ops, i);
    MemoryHoldsHistory(n, ops[..i], ns, key);
    var n1 := MemoryRun(n, ops[..i]).0;
    MemoryTells(n1, ops[i], ns, key);
    MemoryOpEffect(n1, ops[i], ns, key);
  }

  /** And so is every answer of the table. */
  lemma {:induction false} TableAnswersHistory<V>(
    t: Table<V>, open: bool, ops: seq<Op<V>>, i: nat, ns: string, key: string
  )
    requires i < |ops| && NamesKey(ops[i], ns, key)
    ensures var replies := SqliteRun(t, open, ops).1;
            var before := After(Lookup(t, (ns, key)), AllEffects(ops[..i], replies[..i], ns, key, true));
            Tells(ops[i], replies[i], key, before, After(before, Effects(ops[i], replies[i], ns, key, true)))
  {
    hide SqliteStep, After, Tells, NamesKey, Lookup;
    TablePrefix(t, open, ops, i);
    TableHoldsHistory(t, open, ops[..i], ns, key);
    var t1 := SqliteRun(t, open, ops[..i]).0;
    SqliteTells(t1, open, ops[i], ns, key);
    SqliteOpEffect(t1, open, ops[i], ns, key);
  }

  // ----- What is written is found -----

  ghost predicate AllKeep<V>(effects: seq<Effect<V>>) {
    forall i | 0 <= i < |effects| :: effects[i].Keeps?
  }

  lemma {:induction false} KeptRecord<V>(base: Option<Rec<V>>, effects: seq<Effect<V>>)
    requires AllKeep(effects)
    ensures After(base, effects) == base
    decreases |effects|
  {
    if |effects| == 0 {
      NoEffects(base);
    } else {
      var front := effects[..|effects| - 1];
      KeptRecord(base, front);
      OneMore(base, front, effects[|effects| - 1]);
      assert front + [effects[|effects| - 1]] == effects;
    }
  }

  // The effects of operations i to j, when the first is a write and the others keep.
  ghost predicate WritesThenKeeps<V>(
    ops: seq<Op<V>>, replies: seq<Reply<V>>, i: nat, j: nat, ns: string, key: string, trims: bool
  )
    requires i < j <= |ops| == |replies|
  {
    && (ops[i].Set? || ops[i].Update?) && NamesKey(ops[i], ns, key)
    && AllKeep(AllEffects(ops[i + 1..j], replies[i + 1..j], ns, key, trims))
  }

  lemma {:induction false} EffectsSplit<V>(
    ops: seq<Op<V>>, replies: seq<Reply<V>>, i: nat, ns: string, key: string, trims: bool
  )
    requires i <= |ops| == |replies|
    ensures AllEffects(ops, replies, ns, key, trims) ==
            AllEffects(ops[..i], replies[..i], ns, key, trims) + AllEffects(ops[i..], replies[i..], ns, key, trims)
    decreases i
  {
    hide Effects;
    if i == 0 {
      assert ops[0..] == ops && replies[0..] == replies;
    } else {
      EffectsSplit(ops[1..], replies[1..], i - 1, ns, key, trims);
      assert ops[..i][1..] == ops[1..][..i - 1] && replies[..i][1..] == replies[1..][..i - 1];
      assert ops[1..][i - 1..] == ops[i..] && replies[1..][i - 1..] == replies[i..];
    }
  }

  // The value a write gives a key that held `before`.
  ghost function ValueWritten<V>(op: Op<V>, before: Option<Rec<V>>): V
    requires op.Set? || op.Update?
  {
    match op
    case Set(_, _, value, _) => value
    case Update(_, _, updater, _) => updater(if before.Some? then Some(before.value.value) else None)
  }

  lemma {:induction false} WriteStays<V>(
    base: Option<Rec<V>>, ops: seq<Op<V>>, replies: seq<Reply<V>>, i: nat, j: nat, ns: string, key: string, trims: bool
  )
    requires i < j <= |ops| == |replies| && WritesThenKeeps(ops, replies, i, j, ns, key, trims)
    ensures var before := After(base, AllEffects(ops[..i], replies[..i], ns, key, trims));
            var after := After(base, AllEffects(ops[..j], replies[..j], ns, key, trims));
            && after.Some? && after.value.value == ValueWritten(ops[i], before) && after.value.updatedAt == ops[i].now
            && after.value.version == (if before.Some? then before.value.version else 0) + 1
            && after.value.createdAt == (if before.Some? then before.value.createdAt else ops[i].now)
  {
    hide After, AllKeep, AllEffects;
    var before := After(base, AllEffects(ops[..i], replies[..i], ns, key, trims));
    EffectsSplit(ops[..j], replies[..j], i + 1, ns, key, trims);
    assert ops[..j][..i + 1] == ops[..i + 1] && replies[..j][..i + 1] == replies[..i + 1];
    assert ops[..j][i + 1..] == ops[i + 1..j] && replies[..j][i + 1..] == replies[i + 1..j];
    EffectsAppend(ops, replies, i, ns, key, trims);
    var own := OwnEffect(ops[i], replies[i], ns, key, trims);
    LifeAppend(base, AllEffects(ops[..i], replies[..i], ns, key, trims), [own]);
    OneEffect(before, own);
    OneWrite(ValueOf(before), own.write);
    var rest := AllEffects(ops[i + 1..j], replies[i + 1..j], ns, key, trims);
    LifeAppend(base, AllEffects(ops[..i + 1], replies[..i + 1], ns, key, trims), rest);
    KeptRecord(After(base, AllEffects(ops[..i + 1], replies[..i + 1], ns, key, trims)), rest);
  }

  /** What was written last to a key is what both stores find under it, whatever was
      asked of other keys in between. */
  lemma {:induction false} WrittenIsFound<V>(
    n: Namespaces<V>, t: Table<V>, open: bool, ops: seq<Op<V>>, i: nat, j: nat, ns: string, key: string
  )
    requires AllFormed(ops) && i < j < |ops| && ops[j].Get? && NamesKey(ops[j], ns, key)
    ensures var replies := MemoryRun(n, ops).1;
            WritesThenKeeps(ops, replies, i, j, ns, key, false) ==>
              var before := After(MemoryLookup(n, ns, key), AllEffects(ops[..i], replies[..i], ns, key, false));
              replies[j] == Found(Some(ValueWritten(ops[i], before)))
    ensures var replies := SqliteRun(t, open, ops).1;
            WritesThenKeeps(ops, replies, i, j, ns, key, true) ==>
              var before := After(Lookup(t, (ns, key)), AllEffects(ops[..i], replies[..i], ns, key, true));
              replies[j] == Found(Some(ValueWritten(ops[i], before)))
  {
    hide After, AllEffects, NamesKey, AllFormed, MemoryLookup, Lookup, ValueWritten, AllKeep;
    MemoryAnswersHistory(n, ops, j, ns, key);
    TableAnswersHistory(t, open, ops, j, ns, key);
    var rm, rs := MemoryRun(n, ops).1, SqliteRun(t, open, ops).1;
    if WritesThenKeeps(ops, rm, i, j, ns, key, false) {
      WriteStays(MemoryLookup(n, ns, key), ops, rm, i, j, ns, key, false);
    }
    if WritesThenKeeps(ops, rs, i, j, ns, key, true) {
      WriteStays(Lookup(t, (ns, key)), ops, rs, i, j, ns, key, true);
    }
  }

  // ----- Transactions and namespaces -----

  /** A transaction runs and says whether it was committed as its callback ended; only the
      table refuses one inside another. */
  lemma TransactionsSayHowTheyEnded<V>(n: Namespaces<V>, t: Table<V>, open: bool, body: seq<Op<V>>, commits: bool)
    ensures var reply := MemoryStep(n, Transaction(body, commits)).1;
            reply == Ran(MemoryRun(n, body).1, commits)
    ensures var reply := SqliteStep(t, open, Transaction(body, commits)).1;
            reply == if open then NestedTransaction else Ran(SqliteRun(t, true, body).1, commits)
  {
  }

  ghost predicate SomeRecord<V>(t: Table<V>, ns: string) {
    exists key: string :: Lookup(t, (ns, key)).Some?
  }

  /** The table knows a namespace, and says that it removed one, exactly when some key of
      it has a record; memory does so at least then. */
  lemma {:induction false} NamespacesAreTold<V>(n: Namespaces<V>, t: Table<V>, open: bool, name: string, ns: string)
    requires Names(name, ns)
    ensures SqliteStep(t, open, HasNamespace(name)).1 == Flag(SomeRecord(t, ns))
    ensures SqliteStep(t, open, DeleteNamespace(name)).1 == Flag(SomeRecord(t, ns))
    ensures (exists key: string :: MemoryLookup(n, ns, key).Some?) ==>
              MemoryStep(n, HasNamespace(name)).1 == Flag(true) && MemoryStep(n, DeleteNamespace(name)).1 == Flag(true)
    ensures ns !in n ==>
              MemoryStep(n, HasNamespace(name)).1 == Flag(false) && MemoryStep(n, DeleteNamespace(name)).1 == Flag(false)
  {
    hide Normalize, Names;
    NamesIsNormal(name, ns);
    if row :| row in RowsOf(t, ns) {
      assert Lookup(t, (ns, row.1)).Some?;
    }
    if key: string :| Lookup(t, (ns, key)).Some? {
      assert (ns, key) in RowsOf(t, ns);
    }
  }
}
