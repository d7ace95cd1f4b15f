/**
 Two record stores behind one interface: nested maps in memory, and a flat SQL
 table. Each store's operations on its own state, operation by operation; a
 transaction runs its body on a draft, respectively inside BEGIN and COMMIT.
 */
module StorageModel {

  import opened Options
  import opened Strings

  datatype Rec<V> = Rec(value: V, version: int, createdAt: int, updatedAt: int)

  datatype Item<V> = Item(key: string, rec: Rec<V>)

  // A snapshot lists the entries of its objects.
  datatype Section<V> = Section(name: string, items: seq<Item<V>>)

  type Namespaces<V> = map<string, map<string, Rec<V>>>

  type Table<V> = map<(string, string), Rec<V>>

  // `now` is the clock's answer. A transaction's body is what its callback asks
  // of the draft; it commits when the callback returns a plain value.
  datatype Op<!V> =
    | Open(ns: string)
    | Get(ns: string, key: string)
    | Has(ns: string, key: string)
    | Set(ns: string, key: string, value: V, now: int)
    | Update(ns: string, key: string, updater: Option<V> -> V, now: int)
    | Delete(ns: string, key: string)
    | Clear(ns: string)
    | HasNamespace(ns: string)
    | DeleteNamespace(ns: string)
    | ClearAll
    | RestoreNamespace(ns: string, items: seq<Item<V>>)
    | RestoreAll(sections: seq<Section<V>>)
    | Transaction(body: seq<Op<V>>, commits: bool)

  datatype Reply<V> =
    | Done
    | Found(value: Option<V>)
    | Flag(b: bool)
    | Stored(key: string, rec: Rec<V>)
    | Ran(replies: seq<Reply<V>>, committed: bool)
    | InvalidName
    | Conflict
    | NestedTransaction

  // `normalizeName`; None is the error for a blank name.
  function Normalize(name: string): (r: Option<string>)
  {
    if Trim(name) == "" then None else Some(Trim(name))
  }

  // The record after a write over the previous one, if any.
  function Written<V>(previous: Option<Rec<V>>, value: V, now: int): Rec<V> {
    match previous
    case None => Rec(value, 1, now, now)
    case Some(r) => Rec(value, r.version + 1, r.createdAt, now)
  }

  function Lookup<K, V>(m: map<K, V>, key: K): Option<V> {
    if key in m then Some(m[key]) else None
  }

  // ----- The nested maps -----

  // The namespace is created when it is first asked for.
  function Ensure<V>(n: Namespaces<V>, ns: string): Namespaces<V> {
    if ns in n then n else n[ns := map[]]
  }

  // The last of two entries with the same trimmed key wins; a blank key throws.
  function Collect<V>(items: seq<Item<V>>, acc: map<string, Rec<V>>): Option<map<string, Rec<V>>>
    decreases items
  {
    if items == [] then Some(acc)
    else
      match Normalize(items[0].key)
      case None => None
      case Some(key) => Collect(items[1..], acc[key := items[0].rec])
  }

  // Names of namespaces are taken as they stand.
  function CollectAll<V>(sections: seq<Section<V>>, acc: Namespaces<V>): Option<Namespaces<V>>
    decreases sections
  {
    if sections == [] then Some(acc)
    else
      match Collect(sections[0].items, map[])
      case None => None
      case Some(m) => CollectAll(sections[1..], acc[sections[0].name := m])
  }

  function MemoryStep<V>(n: Namespaces<V>, op: Op<V>): (r: (Namespaces<V>, Reply<V>))
    decreases op, 0
  {
    match op
    case ClearAll => (map[], Done)
    case RestoreAll(sections) =>
      (match CollectAll(sections, map[])
       case None => (n, InvalidName)
       case Some(restored) => (restored, Done))
    case Transaction(body, commits) =>
      var (draft, replies) := MemoryRun(n, body);
      (if commits then draft else n, Ran(replies, commits))
    case _ =>
      match Normalize(op.ns)
      case None => (n, InvalidName)
      case Some(ns) => MemoryAt(n, ns, op)
  }

  // An operation on the namespace with the given (normalized) name.
  function MemoryAt<V>(n: Namespaces<V>, ns: string, op: Op<V>): (Namespaces<V>, Reply<V>)
    requires !op.ClearAll? && !op.RestoreAll? && !op.Transaction?
  {
    match op
    case Open(_) => (Ensure(n, ns), Done)
    case Get(_, key) =>
      (Ensure(n, ns),
       match Normalize(key)
       case None => InvalidName
       case Some(k) =>
         match Lookup(Ensure(n, ns)[ns], k)
         case None => Found(None)
         case Some(rec) => Found(Some(rec.value)))
    case Has(_, key) =>
      (Ensure(n, ns), if Normalize(key).None? then InvalidName else Flag(Normalize(key).value in Ensure(n, ns)[ns]))
    case Set(_, key, value, now) => MemoryWrite(Ensure(n, ns), ns, key, _ => value, now)
    case Update(_, key, updater, now) => MemoryWrite(Ensure(n, ns), ns, key, updater, now)
    case Delete(_, key) =>
      if ns !in n then (n, Flag(false))
      else if Normalize(key).None? then (n, InvalidName)
      else (n[ns := n[ns] - {Normalize(key).value}], Flag(Normalize(key).value in n[ns]))
    case Clear(_) => (n[ns := map[]], Done)
    case HasNamespace(_) => (n, Flag(ns in n))
    case DeleteNamespace(_) => (n - {ns}, Flag(ns in n))
    case RestoreNamespace(_, items) =>
      match Collect(items, map[])
      case None => (n, InvalidName)
      case Some(m) => (n[ns := m], Done)
  }

  function MemoryWrite<V>(
    n: Namespaces<V>, ns: string, key: string, updater: Option<V> -> V, now: int
  ): (Namespaces<V>, Reply<V>)
    requires ns in n
  {
    match Normalize(key)
    case None => (n, InvalidName)
    case Some(k) =>
      var previous := Lookup(n[ns], k);
      var rec := Written(previous, updater(ValueOf(previous)), now);
      (n[ns := n[ns][k := rec]], Stored(k, rec))
  }

  function ValueOf<V>(previous: Option<Rec<V>>): Option<V> {
    if previous.None? then None else Some(previous.value.value)
  }

  function MemoryRun<V>(n: Namespaces<V>, ops: seq<Op<V>>): (r: (Namespaces<V>, seq<Reply<V>>))
    ensures |r.1| == |ops|
    decreases ops, 1
  {
    if ops == [] then (n, [])
    else
      var (n1, reply) := MemoryStep(n, ops[0]);
      var (n2, replies) := MemoryRun(n1, ops[1..]);
      (n2, [reply] + replies)
  }

  // ----- The table -----

  datatype Insertion<V> = Inserted(table: Table<V>) | Rejected(reply: Reply<V>)

  // The primary key is the namespace together with the key.
  function Insert<V>(t: Table<V>, ns: string, items: seq<Item<V>>): (r: Insertion<V>)
    ensures r.Rejected? ==> r.reply.InvalidName? || r.reply.Conflict?
    decreases items
  {
    if items == [] then Inserted(t)
    else
      match Normalize(items[0].key)
      case None => Rejected(InvalidName)
      case Some(key) =>
        if (ns, key) in t then Rejected(Conflict) else Insert(t[(ns, key) := items[0].rec], ns, items[1..])
  }

  function InsertAll<V>(t: Table<V>, sections: seq<Section<V>>): (r: Insertion<V>)
    ensures r.Rejected? ==> r.reply.InvalidName? || r.reply.Conflict?
    decreases sections
  {
    if sections == [] then Inserted(t)
    else
      match Normalize(sections[0].name)
      case None => Rejected(InvalidName)
      case Some(ns) =>
        match Insert(t, ns, sections[0].items)
        case Rejected(reply) => Rejected(reply)
        case Inserted(t1) => InsertAll(t1, sections[1..])
  }

  // The rows of a namespace.
  function RowsOf<V>(t: Table<V>, ns: string): set<(string, string)> {
    set k | k in t && k.0 == ns
  }

  // What runs inside BEGIN and COMMIT, and rolls back when it throws.
  function Atomically<V>(t: Table<V>, open: bool, body: Insertion<V>): (Table<V>, Reply<V>) {
    if open then (t, NestedTransaction)
    else
      match body
      case Rejected(reply) => (t, reply)
      case Inserted(t1) => (t1, Done)
  }

  // `open` says whether a transaction is in progress.
  function SqliteStep<V>(t: Table<V>, open: bool, op: Op<V>): (r: (Table<V>, Reply<V>))
    decreases op, 0
  {
    match op
    case ClearAll => (map[], Done)
    case RestoreAll(sections) => Atomically(t, open, InsertAll(map[], sections))
    case Transaction(body, commits) =>
      if open then (t, NestedTransaction)
      else
        var (draft, replies) := SqliteRun(t, true, body);
        (if commits then draft else t, Ran(replies, commits))
    case _ =>
      match Normalize(op.ns)
      case None => (t, InvalidName)
      case Some(ns) => SqliteAt(t, open, ns, op)
  }

  function SqliteAt<V>(t: Table<V>, open: bool, ns: string, op: Op<V>): (Table<V>, Reply<V>)
    requires !op.ClearAll? && !op.RestoreAll? && !op.Transaction?
  {
    match op
    case Open(_) => (t, Done)
    case Get(_, key) =>
      (t, match Normalize(key)
          case None => InvalidName
          case Some(k) =>
            match Lookup(t, (ns, k))
            case None => Found(None)
            case Some(rec) => Found(Some(rec.value)))
    case Has(_, key) => (t, if Normalize(key).None? then InvalidName else Flag((ns, Normalize(key).value) in t))
    case Set(_, key, value, now) => SqliteWrite(t, ns, key, _ => value, now)
    case Update(_, key, updater, now) => SqliteWrite(t, ns, key, updater, now)
    case Delete(_, key) =>
      if Normalize(key).None? then (t, InvalidName)
      else (t - {(ns, Normalize(key).value)}, Flag((ns, Normalize(key).value) in t))
    case Clear(_) => (t - RowsOf(t, ns), Done)
    case HasNamespace(_) => (t, Flag(RowsOf(t, ns) != {}))
    case DeleteNamespace(_) => (t - RowsOf(t, ns), Flag(RowsOf(t, ns) != {}))
    case RestoreNamespace(_, items) => Atomically(t, open, Insert(t - RowsOf(t, ns), ns, items))
  }

  function SqliteWrite<V>(
    t: Table<V>, ns: string, key: string, updater: Option<V> -> V, now: int
  ): (Table<V>, Reply<V>) {
    match Normalize(key)
    case None => (t, InvalidName)
    case Some(k) =>
      var previous := Lookup(t, (ns, k));
      var rec := Written(previous, updater(ValueOf(previous)), now);
      (t[(ns, k) := rec], Stored(k, rec))
  }

  function SqliteRun<V>(t: Table<V>, open: bool, ops: seq<Op<V>>): (r: (Table<V>, seq<Reply<V>>))
    ensures |r.1| == |ops|
    decreases ops, 1
  {
    if ops == [] then (t, [])
    else
      var (t1, reply) := SqliteStep(t, open, ops[0]);
      var (t2, replies) := SqliteRun(t1, open, ops[1..]);
      (t2, [reply] + replies)
  }
}
