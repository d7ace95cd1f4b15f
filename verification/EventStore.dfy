/**
 What the event numbering does to the store: the numbers of a thread start above
 everything stored for it, and no stored event is ever overwritten.
 */
module EventStore {

  import opened Options
  import opened EventIds
  import opened EventSequence

  // Until a thread is numbered its stored events are as they were at the start, and
  // from then on the listing that it is numbered from has seen them all.
  ghost predicate Seen(s: State, store: map<string, nat>, t: ThreadId) {
    forall m: nat :: EventId(t, m) in store ==>
      if t in s.cache then t in s.floor && store[EventId(t, m)] <= s.floor[t]
      else EventId(t, m) in s.store && s.store[EventId(t, m)] == store[EventId(t, m)]
  }

  ghost predicate DoneWith(s: State, t: ThreadId, m: nat) {
    exists i :: 0 <= i < |s.callers| && s.callers[i].thread == t && s.callers[i].phase.Done?
                && Taken(s.callers[i]) == Some(m)
  }

  // What is stored was there at the start, or was written under its own number by a
  // caller that has left.
  ghost predicate Explained(s: State, store: map<string, nat>) {
    forall t: ThreadId, m: nat :: EventId(t, m) in s.store ==>
      EventId(t, m) in store || (DoneWith(s, t, m) && s.store[EventId(t, m)] == m)
  }

  ghost predicate StoreInv(s: State, store: map<string, nat>) {
    LockInv(s) && NumberInv(s) && (forall t :: Seen(s, store, t)) && Explained(s, store)
  }

  lemma {:induction false} WriterIsCached(s: State, i: nat)
    requires NumberInv(s) && i < |s.callers| && s.callers[i].phase.Storing?
    ensures s.callers[i].thread in s.cache
  {
    assert Numbered(s, s.callers[i].thread);
    TakenIsNumbered(s.callers, s.callers[i].thread);
  }

  lemma {:induction false} IdHasPrefix(t: ThreadId, m: nat)
    ensures HasPrefix(EventId(t, m), t + ":")
  {
  }

  lemma {:induction false} ListedSees(s: State, i: nat, maximum: nat, store: map<string, nat>, t: ThreadId)
    requires NumberInv(s) && Seen(s, store, t) && Enabled(s, ListedE(i, maximum))
    ensures Seen(Listed(s, i, maximum), store, t)
  {
    hide HasPrefix, Numbered, StoredEventsKept;
    forall m: nat | EventId(t, m) in s.store
      ensures HasPrefix(EventId(t, m), t + ":")
    {
      IdHasPrefix(t, m);
    }
  }

  lemma {:induction false} WrittenSees(s: State, i: nat, store: map<string, nat>, t: ThreadId)
    requires NumberInv(s) && Seen(s, store, t) && i < |s.callers| && s.callers[i].phase.Storing?
    ensures Seen(Written(s, i), store, t)
  {
    hide NumberInv, EventId;
    WriterIsCached(s, i);
    if t !in s.cache {
      forall m: nat
        ensures EventId(t, m) != EventId(s.callers[i].thread, s.callers[i].phase.sequence)
      {
        if EventId(t, m) == EventId(s.callers[i].thread, s.callers[i].phase.sequence) {
          EventIdsAreUnique(t, m, s.callers[i].thread, s.callers[i].phase.sequence);
        }
      }
    }
  }

  lemma {:induction false} StepSees(s: State, e: Event, store: map<string, nat>, t: ThreadId)
    requires NumberInv(s) && Seen(s, store, t) && Enabled(s, e)
    ensures Seen(Step(s, e), store, t)
  {
    hide NumberInv, IsMaximum, EventId;
    match e
    case ArriveE(_) =>
    case EnterE(_) =>
    case ListedE(i, m) => ListedSees(s, i, m, store, t);
    case ListFailedE(_) =>
    case StoredE(i) => WrittenSees(s, i, store, t);
    case StoreFailedE(i, _) => WrittenSees(s, i, store, t);
  }

  // A caller that has left keeps its number.
  lemma {:induction false} DoneStays(s: State, e: Event, t: ThreadId, m: nat)
    requires Enabled(s, e) && DoneWith(s, t, m)
    ensures DoneWith(Step(s, e), t, m)
  {
    hide IsMaximum;
    var i :| 0 <= i < |s.callers| && s.callers[i].thread == t && s.callers[i].phase.Done?
             && Taken(s.callers[i]) == Some(m);
    assert Step(s, e).callers[i] == s.callers[i];
  }

  predicate Writes(e: Event) {
    e.StoredE? || (e.StoreFailedE? && e.written)
  }

  function Writer(e: Event): nat
    requires Writes(e)
  {
    if e.StoredE? then e.writer else e.loser
  }

  // What a step does to the store.
  lemma {:induction false} StoreAfter(s: State, e: Event)
    requires Enabled(s, e)
    ensures !Writes(e) ==> Step(s, e).store == s.store
    ensures Writes(e) ==>
              var c := s.callers[Writer(e)];
              && Step(s, e).store == s.store[EventId(c.thread, c.phase.sequence) := c.phase.sequence]
              && DoneWith(Step(s, e), c.thread, c.phase.sequence)
  {
    hide IsMaximum, EventId;
    if Writes(e) {
      var i := Writer(e);
      assert Taken(Step(s, e).callers[i]) == Some(s.callers[i].phase.sequence);
    }
  }

  lemma WriterStores(s: State, e: Event)
    requires Enabled(s, e) && Writes(e)
    ensures Writer(e) < |s.callers| && s.callers[Writer(e)].phase.Storing?
  {
  }

  lemma {:induction false} StepExplains(s: State, e: Event, store: map<string, nat>)
    requires Explained(s, store) && Enabled(s, e)
    ensures Explained(Step(s, e), store)
  {
    hide Enabled, Step, DoneWith, EventId;
    StoreAfter(s, e);
    forall t: ThreadId, m: nat | EventId(t, m) in Step(s, e).store && EventId(t, m) !in store
      ensures DoneWith(Step(s, e), t, m) && Step(s, e).store[EventId(t, m)] == m
    {
      if EventId(t, m) in s.store {
        DoneStays(s, e, t, m);
      }
      if Writes(e) {
        WriterStores(s, e);
        var c := s.callers[Writer(e)];
        if EventId(t, m) == EventId(c.thread, c.phase.sequence) {
          EventIdsAreUnique(t, m, c.thread, c.phase.sequence);
        }
      }
    }
  }

  lemma {:induction false} StepKeepsStoreInv(s: State, e: Event, store: map<string, nat>)
    requires StoreInv(s, store) && Enabled(s, e)
    ensures StoreInv(Step(s, e), store)
  {
    hide LockInv, NumberInv, Seen, Explained, Enabled, Step;
    StepKeepsLock(s, e);
    StepKeepsNumbers(s, e);
    StepExplains(s, e, store);
    forall t
      ensures Seen(Step(s, e), store, t)
    {
      StepSees(s, e, store, t);
    }
  }

  lemma {:induction false} RunKeepsStoreInv(s: State, events: seq<Event>, t: State, store: map<string, nat>)
    requires StoreInv(s, store) && IsRun(s, events, t)
    ensures StoreInv(t, store)
    decreases |events|
  {
    hide StoreInv;
    if events != [] {
      StepKeepsStoreInv(s, events[0], store);
      RunKeepsStoreInv(Step(s, events[0]), events[1..], t, store);
    }
  }

  lemma {:induction false} StartHolds(store: map<string, nat>)
    ensures StoreInv(Initial(store), store)
  {
    InitialNumbers(store);
  }

  // Whatever the callers on this and other threads do, and whichever listings and
  // stores fail, each number a thread takes is above all that was stored for it.
  lemma {:induction false} NumbersAreAboveStored(
    store: map<string, nat>, events: seq<Event>, s: State, t: ThreadId, m: nat, k: nat
  )
    requires IsRun(Initial(store), events, s)
    requires k < |Numbers(s.callers, t)| && EventId(t, m) in store
    ensures store[EventId(t, m)] < Numbers(s.callers, t)[k]
  {
    hide LockInv, Explained, EventId;
    StartHolds(store);
    RunKeepsStoreInv(Initial(store), events, s, store);
    assert Numbered(s, t) && Seen(s, store, t);
  }

  // ----- Overwriting -----

  ghost predicate Grows(store: map<string, nat>, later: map<string, nat>) {
    forall id :: id in store ==> id in later && later[id] == store[id]
  }

  // Each stored id's number is at most some sequence that its thread's listing sees.
  ghost predicate IdsFit(store: map<string, nat>) {
    forall t: ThreadId, m: nat :: EventId(t, m) in store ==>
      exists id :: id in store && HasPrefix(id, t + ":") && m <= store[id]
  }

  // Listings have seen all of the store at the start.
  ghost predicate SeenAll(s: State, store: map<string, nat>, t: ThreadId) {
    t in s.cache ==> t in s.floor && forall id :: id in store && HasPrefix(id, t + ":") ==> store[id] <= s.floor[t]
  }

  ghost predicate FitInv(s: State, store: map<string, nat>) {
    StoreInv(s, store) && IdsFit(store) && Grows(store, s.store) && forall t :: SeenAll(s, store, t)
  }

  // A caller about to store has an id that nothing is stored under.
  lemma {:induction false} NewIdIsFree(s: State, i: nat, store: map<string, nat>)
    requires FitInv(s, store) && i < |s.callers| && s.callers[i].phase.Storing?
    ensures EventId(s.callers[i].thread, s.callers[i].phase.sequence) !in s.store
  {
    hide LockInv, EventId, Seen, Grows, HasPrefix, NumberInv, DoneWith;
    var t, n := s.callers[i].thread, s.callers[i].phase.sequence;
    NumberIsAboveFloor(s, i);
    assert SeenAll(s, store, t);
    if EventId(t, n) in s.store && EventId(t, n) !in store {
      OneTakerOnly(s, i);
    }
  }

  lemma {:induction false} NumberIsAboveFloor(s: State, i: nat)
    requires NumberInv(s) && i < |s.callers| && s.callers[i].phase.Storing?
    ensures var t := s.callers[i].thread;
            t in s.cache && t in s.floor && s.floor[t] < s.callers[i].phase.sequence
  {
    var t := s.callers[i].thread;
    WriterIsCached(s, i);
    TakenIsNumbered(s.callers, t);
    assert Numbered(s, t) && s.callers[i].phase.sequence in Numbers(s.callers, t);
  }

  lemma {:induction false} OneTakerOnly(s: State, i: nat)
    requires NumberInv(s) && i < |s.callers| && s.callers[i].phase.Storing?
    ensures !DoneWith(s, s.callers[i].thread, s.callers[i].phase.sequence)
  {
    hide NumberInv;
    var t, n := s.callers[i].thread, s.callers[i].phase.sequence;
    if j :| 0 <= j < |s.callers| && s.callers[j].thread == t && s.callers[j].phase.Done?
            && Taken(s.callers[j]) == Some(n)
    {
      TakenInOrder(s, if i < j then i else j, if i < j then j else i);
    }
  }

  lemma {:induction false} StepKeepsEvents(s: State, e: Event, store: map<string, nat>)
    requires FitInv(s, store) && Enabled(s, e)
    ensures Grows(s.store, Step(s, e).store)
  {
    hide FitInv, EventId, DoneWith, Step;
    StoreAfter(s, e);
    if Writes(e) {
      WriterStores(s, e);
      NewIdIsFree(s, Writer(e), store);
    }
  }

  lemma {:induction false} StepSeesAll(s: State, e: Event, store: map<string, nat>, t: ThreadId)
    requires Grows(store, s.store) && SeenAll(s, store, t) && Enabled(s, e)
    ensures SeenAll(Step(s, e), store, t)
  {
    hide HasPrefix;
  }

  lemma {:induction false} StepKeepsFit(s: State, e: Event, store: map<string, nat>)
    requires FitInv(s, store) && Enabled(s, e)
    ensures FitInv(Step(s, e), store) && Grows(s.store, Step(s, e).store)
  {
    hide StoreInv, IdsFit, SeenAll, Enabled, Step;
    StepKeepsStoreInv(s, e, store);
    StepKeepsEvents(s, e, store);
    forall t
      ensures SeenAll(Step(s, e), store, t)
    {
      StepSeesAll(s, e, store, t);
    }
  }

  lemma {:induction false} RunKeepsFit(s: State, events: seq<Event>, t: State, store: map<string, nat>)
    requires FitInv(s, store) && IsRun(s, events, t)
    ensures FitInv(t, store) && Grows(s.store, t.store)
    decreases |events|
  {
    hide FitInv, Enabled, Step;
    if events != [] {
      StepKeepsFit(s, events[0], store);
      RunKeepsFit(Step(s, events[0]), events[1..], t, store);
    }
  }

  // No stored event is ever overwritten, neither one that was there at the start nor
  // one that was stored on the way.
  lemma {:induction false} NothingIsOverwritten(
    store: map<string, nat>, events: seq<Event>, s: State, more: seq<Event>, t: State
  )
    requires IsRun(Initial(store), events, s) && IsRun(s, more, t) && IdsFit(store)
    ensures Grows(s.store, t.store)
  {
    hide StoreInv, IdsFit;
    StartHolds(store);
    RunKeepsFit(Initial(store), events, s, store);
    RunKeepsFit(s, more, t, store);
  }

  // A run leaves a store whose ids fit, so a server that is started again on it does
  // not overwrite anything either.
  lemma {:induction false} RestartOverwritesNothing(
    store: map<string, nat>, events: seq<Event>, s: State, again: seq<Event>, t: State
  )
    requires IdsFit(store) && IsRun(Initial(store), events, s) && IsRun(Initial(s.store), again, t)
    ensures IdsFit(s.store) && Grows(store, s.store) && Grows(s.store, t.store)
  {
    hide FitInv, IdsFit, Grows;
    StartFits(store);
    RunKeepsFit(Initial(store), events, s, store);
    EndFits(s, store);
    StartFits(s.store);
    RunKeepsFit(Initial(s.store), again, t, s.store);
  }

  lemma {:induction false} StartFits(store: map<string, nat>)
    requires IdsFit(store)
    ensures FitInv(Initial(store), store)
  {
    hide StoreInv, IdsFit;
    StartHolds(store);
  }

  // New events carry their own number.
  lemma {:induction false} EndFits(s: State, store: map<string, nat>)
    requires FitInv(s, store)
    ensures IdsFit(s.store)
  {
    hide LockInv, EventId, HasPrefix, NumberInv, Seen, SeenAll;
    forall t: ThreadId, m: nat | EventId(t, m) in s.store
      ensures exists id :: id in s.store && HasPrefix(id, t + ":") && m <= s.store[id]
    {
      IdHasPrefix(t, m);
      if EventId(t, m) in store {
        var id :| id in store && HasPrefix(id, t + ":") && m <= store[id];
        assert id in s.store && s.store[id] == store[id];
      }
    }
  }

  // ----- A store whose ids do not fit -----

  lemma {:induction false} RunsJoin(a: State, first: seq<Event>, b: State, second: seq<Event>, c: State)
    requires IsRun(a, first, b) && IsRun(b, second, c)
    ensures IsRun(a, first + second, c)
    decreases |first|
  {
    hide Enabled, Step;
    if first == [] {
      assert first + second == second;
    } else {
      RunsJoin(Step(a, first[0]), first[1..], b, second, c);
      assert (first + second)[1..] == first[1..] + second;
    }
  }

  // One caller alone: it arrives, enters, and takes and stores the next number.
  function Alone(s: State, t: ThreadId, maximum: nat): seq<Event> {
    var n := |s.callers|;
    [ArriveE(t), EnterE(n)] + (if t in s.cache then [] else [ListedE(n, maximum)]) + [StoredE(n)]
  }

  function NextNumber(s: State, t: ThreadId, maximum: nat): nat {
    if t in s.cache then s.cache[t] else maximum + 1
  }

  lemma {:induction false} AloneRuns(s: State, t: ThreadId, maximum: nat) returns (u: State)
    requires t !in s.locks && (t in s.cache || IsMaximum(s.store, t + ":", maximum))
    ensures IsRun(s, Alone(s, t, maximum), u) && t !in u.locks
    ensures var n := NextNumber(s, t, maximum);
            u.store == s.store[EventId(t, n) := n] && t in u.cache && u.cache[t] == n + 1
  {
    hide EventId, IsMaximum, IsRun;
    var n, i := NextNumber(s, t, maximum), |s.callers|;
    var a := Step(s, ArriveE(t));
    OneStepRun(s, ArriveE(t));
    OneStepRun(a, EnterE(i));
    var b := Step(a, EnterE(i));
    RunsJoin(s, [ArriveE(t)], a, [EnterE(i)], b);
    assert [ArriveE(t)] + [EnterE(i)] == [ArriveE(t), EnterE(i)];
    var c, listing := b, [];
    if t !in s.cache {
      c, listing := Step(b, ListedE(i, maximum)), [ListedE(i, maximum)];
      OneStepRun(b, ListedE(i, maximum));
    } else {
      NoStepRun(b);
    }
    RunsJoin(s, [ArriveE(t), EnterE(i)], b, listing, c);
    u := Step(c, StoredE(i));
    OneStepRun(c, StoredE(i));
    RunsJoin(s, [ArriveE(t), EnterE(i)] + listing, c, [StoredE(i)], u);
  }

  lemma OneStepRun(s: State, e: Event)
    requires Enabled(s, e)
    ensures IsRun(s, [e], Step(s, e))
  {
    assert [e][1..] == [];
  }

  lemma NoStepRun(s: State)
    ensures IsRun(s, [], s)
  {
  }

  // Callers one after the other come to any number in the end.
  lemma {:induction false} ReachNumber(s: State, t: ThreadId, maximum: nat, m: nat) returns (events: seq<Event>, u: State)
    requires t !in s.locks && (t in s.cache || IsMaximum(s.store, t + ":", maximum))
    requires NextNumber(s, t, maximum) <= m
    ensures IsRun(s, events, u) && EventId(t, m) in u.store && u.store[EventId(t, m)] == m
    decreases m - NextNumber(s, t, maximum)
  {
    hide EventId, IsMaximum, IsRun, Alone;
    u := AloneRuns(s, t, maximum);
    events := Alone(s, t, maximum);
    if NextNumber(s, t, maximum) < m {
      var more, v := ReachNumber(u, t, maximum, m);
      RunsJoin(s, events, u, more, v);
      events, u := events + more, v;
    }
  }

  lemma {:induction false} MaximumExists(store: map<string, nat>, prefix: string) returns (m: nat)
    ensures IsMaximum(store, prefix, m)
    decreases |store|
  {
    hide HasPrefix;
    if id :| id in store && HasPrefix(id, prefix) {
      var rest := store - {id};
      var r := MaximumExists(rest, prefix);
      m := if r < store[id] then store[id] else r;
      if x :| x in rest && HasPrefix(x, prefix) && rest[x] == r {
        assert x in store && store[x] == r;
      }
    } else {
      m := 0;
    }
  }

  ghost predicate OverwrittenBy(store: map<string, nat>, events: seq<Event>, s: State) {
    IsRun(Initial(store), events, s) && !Grows(store, s.store)
  }

  // Some run overwrites an event that was stored at the start exactly when the store
  // holds an id whose number is above all that its thread's listing sees.
  lemma {:induction false} OverwrittenExactly(store: map<string, nat>)
    ensures (exists events, s :: OverwrittenBy(store, events, s)) <==> !IdsFit(store)
  {
    hide EventId, HasPrefix, IsRun;
    if IdsFit(store) {
      forall events, s | IsRun(Initial(store), events, s)
        ensures Grows(store, s.store)
      {
        NoStepRun(Initial(store));
        NothingIsOverwritten(store, [], Initial(store), events, s);
      }
    } else {
      var t: ThreadId, m: nat :| EventId(t, m) in store && forall id :: id in store && HasPrefix(id, t + ":") ==> store[id] < m;
      IdHasPrefix(t, m);
      var maximum := MaximumExists(store, t + ":");
      var events, s := ReachNumber(Initial(store), t, maximum, m);
      assert OverwrittenBy(store, events, s);
    }
  }

  // ----- Leaving -----

  predicate Ends(e: Event) {
    e.ListFailedE? || e.StoredE? || e.StoreFailedE?
  }

  function Ender(e: Event): nat
    requires Ends(e)
  {
    match e
    case ListFailedE(i) => i
    case StoredE(i) => i
    case StoreFailedE(i, _) => i
  }

  // Whatever ends a caller's turn, a failure of the list or of the store included, it
  // leaves with the number it has, and the next caller of its thread may enter.
  lemma {:induction false} FailuresReleaseTheLock(
    store: map<string, nat>, events: seq<Event>, s: State, e: Event, next: nat
  )
    requires IsRun(Initial(store), events, s) && Enabled(s, e) && Ends(e)
    ensures var i, t := Ender(e), Step(s, e);
            && i < |s.callers| && t.callers[i].phase.Done? && Taken(t.callers[i]) == Taken(s.callers[i])
            && (t.callers[i].phase.stored <==> e.StoredE?)
            && (next < |t.callers| && t.callers[next].thread == t.callers[i].thread && !t.callers[next].phase.Done?
                && EarlierDone(t.callers, next) ==>
                  next != i && MayEnter(t.callers, next))
  {
    hide IsMaximum, LockInv, EventId;
    var i, t := Ender(e), Step(s, e);
    InitialLock(store);
    RunKeepsLock(Initial(store), events, s);
    StepKeepsLock(s, e);
    OnlyEnderWasInside(s, i);
    if next < |t.callers| && t.callers[next].thread == t.callers[i].thread && !t.callers[next].phase.Done?
       && EarlierDone(t.callers, next)
    {
      assert t.callers[next] == s.callers[next];
      WaitingMayEnter(t, next);
    }
  }

  lemma InitialLock(store: map<string, nat>)
    ensures LockInv(Initial(store))
  {
  }

  lemma {:induction false} OnlyEnderWasInside(s: State, i: nat)
    requires LockInv(s) && i < |s.callers| && Inside(s.callers[i].phase)
    ensures forall j :: 0 <= j < |s.callers| && j != i && s.callers[j].thread == s.callers[i].thread ==>
                        s.callers[j].phase.Done? || s.callers[j].phase == Waiting
  {
    InsideMeansEarlierDone(s, i);
    LaterCallersWait(s, i);
  }

  lemma {:induction false} WaitingMayEnter(t: State, next: nat)
    requires LockInv(t) && next < |t.callers| && t.callers[next].phase == Waiting && EarlierDone(t.callers, next)
    ensures MayEnter(t.callers, next)
  {
    if t.callers[next].previous.Some? {
      DoneChainResolves(t, t.callers[next].previous.value);
    }
  }
}
