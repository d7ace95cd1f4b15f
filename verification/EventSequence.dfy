/**
 Event numbering of the web UI server: `emitEvent` runs its numbering and its
 store under a per-thread lock built from chained promises. The steps below
 are the stretches of code between two awaits, taken in any order that the
 promises allow, for any number of concurrent callers on any threads.
 */
module EventSequence {

  import opened Options
  import opened EventIds

  datatype Phase =
    | Waiting
    // Inside the lock, before a number is known.
    | Listing
    // Inside the lock, with the number being stored.
    | Storing(sequence: nat)
    // The lock is released; the number that was taken, and whether the store
    // reported success.
    | Done(taken: Option<nat>, stored: bool)

  // `previous` is the caller whose chained promise this one waits for.
  datatype Caller = Caller(thread: ThreadId, previous: Option<nat>, phase: Phase)

  // Callers are numbered by arrival. A lock entry holds the chained promise
  // of the caller it names. `floor` remembers what listing a thread found.
  datatype State = State(
    callers: seq<Caller>,
    locks: map<ThreadId, nat>,
    cache: map<ThreadId, nat>,
    store: map<string, nat>,
    floor: map<ThreadId, nat>)

  function Initial(store: map<string, nat>): State {
    State([], map[], map[], store, map[])
  }

  // ----- Promises -----

  // The chained promise of a caller resolves once its own part is released
  // and the chain before it has resolved.
  predicate ChainResolved(callers: seq<Caller>, i: nat) {
    i < |callers| && callers[i].phase.Done?
    && (callers[i].previous.Some? ==> callers[i].previous.value < i && ChainResolved(callers, callers[i].previous.value))
  }

  predicate MayEnter(callers: seq<Caller>, i: nat) {
    && i < |callers| && callers[i].phase == Waiting
    && (callers[i].previous.Some? ==> ChainResolved(callers, callers[i].previous.value))
  }

  // ----- Steps -----

  function SetPhase(s: State, i: nat, phase: Phase): State
    requires i < |s.callers|
  {
    s.(callers := s.callers[i := s.callers[i].(phase := phase)])
  }

  function Arrive(s: State, thread: ThreadId): State {
    var previous := if thread in s.locks then Some(s.locks[thread]) else None;
    s.(callers := s.callers + [Caller(thread, previous, Waiting)], locks := s.locks[thread := |s.callers|])
  }

  // The callback starts: the cache answers at once or the store is listed.
  function Enter(s: State, i: nat): State
    requires i < |s.callers|
  {
    var t := s.callers[i].thread;
    if t in s.cache then SetPhase(s.(cache := s.cache[t := s.cache[t] + 1]), i, Storing(s.cache[t]))
    else SetPhase(s, i, Listing)
  }

  predicate HasPrefix(id: string, prefix: string) {
    prefix <= id
  }

  // The largest sequence among the listed events, or 0.
  ghost predicate IsMaximum(store: map<string, nat>, prefix: string, m: nat) {
    && (forall id :: id in store && HasPrefix(id, prefix) ==> store[id] <= m)
    && (m == 0 || exists id :: id in store && HasPrefix(id, prefix) && store[id] == m)
  }

  function Listed(s: State, i: nat, maximum: nat): State
    requires i < |s.callers|
  {
    var t := s.callers[i].thread;
    SetPhase(s.(cache := s.cache[t := maximum + 2], floor := s.floor[t := maximum]), i, Storing(maximum + 1))
  }

  // Leaving the lock: release, and drop the entry if it is still our own.
  function Leave(s: State, i: nat, taken: Option<nat>, stored: bool): State
    requires i < |s.callers|
  {
    var t := s.callers[i].thread;
    SetPhase(s.(locks := if t in s.locks && s.locks[t] == i then s.locks - {t} else s.locks), i, Done(taken, stored))
  }

  function Written(s: State, i: nat): State
    requires i < |s.callers| && s.callers[i].phase.Storing?
  {
    var n := s.callers[i].phase.sequence;
    s.(store := s.store[EventId(s.callers[i].thread, n) := n])
  }

  datatype Event =
    | ArriveE(thread: ThreadId)
    | EnterE(caller: nat)
    // The list answers with the maximum it found, or fails.
    | ListedE(lister: nat, maximum: nat)
    | ListFailedE(failed: nat)
    // The store reports success, or an error with or without having written.
    | StoredE(writer: nat)
    | StoreFailedE(loser: nat, written: bool)

  // Which events the promises and the store allow.
  ghost predicate Enabled(s: State, e: Event) {
    match e
    case ArriveE(_) => true
    case EnterE(i) => MayEnter(s.callers, i)
    case ListedE(i, m) =>
      i < |s.callers| && s.callers[i].phase == Listing && IsMaximum(s.store, s.callers[i].thread + ":", m)
    case ListFailedE(i) => i < |s.callers| && s.callers[i].phase == Listing
    case StoredE(i) => i < |s.callers| && s.callers[i].phase.Storing?
    case StoreFailedE(i, _) => i < |s.callers| && s.callers[i].phase.Storing?
  }

  function Step(s: State, e: Event): State
    requires Enabled(s, e)
  {
    match e
    case ArriveE(t) => Arrive(s, t)
    case EnterE(i) => Enter(s, i)
    case ListedE(i, m) => Listed(s, i, m)
    case ListFailedE(i) => Leave(s, i, None, false)
    case StoredE(i) => Leave(Written(s, i), i, Some(s.callers[i].phase.sequence), true)
    case StoreFailedE(i, written) =>
      Leave(if written then Written(s, i) else s, i, Some(s.callers[i].phase.sequence), false)
  }

  // A run: every event is allowed where it happens.
  ghost predicate IsRun(s: State, events: seq<Event>, t: State)
    decreases |events|
  {
    if events == [] then s == t
    else Enabled(s, events[0]) && IsRun(Step(s, events[0]), events[1..], t)
  }

  // ----- The lock -----

  predicate Inside(phase: Phase) {
    phase.Listing? || phase.Storing?
  }

  ghost predicate EarlierDone(callers: seq<Caller>, i: nat)
    requires i < |callers|
  {
    forall j :: 0 <= j < i && callers[j].thread == callers[i].thread ==> callers[j].phase.Done?
  }

  // The chain of a caller leads to the one that arrived just before it on the
  // same thread; a missing chain means that nobody before it is still active.
  ghost predicate ChainOrdered(callers: seq<Caller>) {
    forall i :: 0 <= i < |callers| ==>
      match callers[i].previous
      case None => EarlierDone(callers, i)
      case Some(p) =>
        && p < i && callers[p].thread == callers[i].thread
        && forall j :: p < j < i ==> callers[j].thread != callers[i].thread
  }

  // Whoever has entered was preceded only by callers that have left.
  ghost predicate EnteredInOrder(callers: seq<Caller>) {
    forall i :: 0 <= i < |callers| && callers[i].phase != Waiting ==> EarlierDone(callers, i)
  }

  // A lock entry names the last caller of its thread, and exists exactly
  // while that caller is active.
  ghost predicate LocksCurrent(callers: seq<Caller>, locks: map<ThreadId, nat>) {
    && (forall t :: t in locks ==>
          && locks[t] < |callers| && callers[locks[t]].thread == t && !callers[locks[t]].phase.Done?
          && forall j :: locks[t] < j < |callers| ==> callers[j].thread != t)
    && (forall j :: 0 <= j < |callers| && callers[j].thread !in locks ==> callers[j].phase.Done?)
  }

  ghost predicate LockInv(s: State) {
    ChainOrdered(s.callers) && EnteredInOrder(s.callers) && LocksCurrent(s.callers, s.locks)
  }

  lemma {:induction false} ArriveKeepsLock(s: State, t: ThreadId)
    requires LockInv(s)
    ensures LockInv(Arrive(s, t))
  {
    var after := Arrive(s, t);
    assert forall j :: 0 <= j < |s.callers| ==> after.callers[j] == s.callers[j];
  }

  // Under the invariant a resolved chain means that all earlier callers left.
  lemma {:induction false} MayEnterMeansEarlierDone(s: State, i: nat)
    requires LockInv(s) && MayEnter(s.callers, i)
    ensures EarlierDone(s.callers, i)
  {
    if s.callers[i].previous.Some? {
      var p := s.callers[i].previous.value;
      assert EarlierDone(s.callers, p);
    }
  }

  function WithPhase(callers: seq<Caller>, i: nat, phase: Phase): seq<Caller>
    requires i < |callers|
  {
    callers[i := callers[i].(phase := phase)]
  }

  lemma {:induction false} EarlierStaysDone(callers: seq<Caller>, i: nat, phase: Phase, j: nat)
    requires i < |callers| && !callers[i].phase.Done? && j < |callers| && EarlierDone(callers, j)
    ensures EarlierDone(WithPhase(callers, i, phase), j)
  {
    var after := WithPhase(callers, i, phase);
    forall k | 0 <= k < j && after[k].thread == after[j].thread
      ensures after[k].phase.Done?
    {
      assert callers[k].phase.Done?;
    }
  }

  lemma {:induction false} PhaseKeepsChains(callers: seq<Caller>, i: nat, phase: Phase)
    requires ChainOrdered(callers) && i < |callers| && !callers[i].phase.Done?
    ensures ChainOrdered(WithPhase(callers, i, phase))
  {
    var after := WithPhase(callers, i, phase);
    forall j | 0 <= j < |after| && after[j].previous.None?
      ensures EarlierDone(after, j)
    {
      EarlierStaysDone(callers, i, phase, j);
    }
  }

  lemma {:induction false} PhaseKeepsEntryOrder(callers: seq<Caller>, i: nat, phase: Phase)
    requires EnteredInOrder(callers) && i < |callers| && !callers[i].phase.Done? && EarlierDone(callers, i)
    ensures EnteredInOrder(WithPhase(callers, i, phase))
  {
    var after := WithPhase(callers, i, phase);
    forall j | 0 <= j < |after| && after[j].phase != Waiting
      ensures EarlierDone(after, j)
    {
      EarlierStaysDone(callers, i, phase, j);
    }
  }

  // Entering, or moving on inside the lock.
  lemma {:induction false} AdvanceKeepsLock(s: State, i: nat, phase: Phase)
    requires LockInv(s) && i < |s.callers| && EarlierDone(s.callers, i)
    requires !s.callers[i].phase.Done? && !phase.Done?
    ensures LockInv(SetPhase(s, i, phase))
  {
    PhaseKeepsChains(s.callers, i, phase);
    PhaseKeepsEntryOrder(s.callers, i, phase);
  }

  lemma {:induction false} LeaveKeepsLock(s: State, i: nat, taken: Option<nat>, stored: bool)
    requires LockInv(s) && i < |s.callers| && Inside(s.callers[i].phase)
    ensures LockInv(Leave(s, i, taken, stored))
  {
    InsideMeansEarlierDone(s, i);
    PhaseKeepsChains(s.callers, i, Done(taken, stored));
    PhaseKeepsEntryOrder(s.callers, i, Done(taken, stored));
    LeaveKeepsEntries(s, i, taken, stored);
  }

  lemma {:induction false} LeaveKeepsEntries(s: State, i: nat, taken: Option<nat>, stored: bool)
    requires LocksCurrent(s.callers, s.locks)
    requires i < |s.callers| && !s.callers[i].phase.Done? && EarlierDone(s.callers, i)
    ensures LocksCurrent(Leave(s, i, taken, stored).callers, Leave(s, i, taken, stored).locks)
  {
    var t, after := s.callers[i].thread, Leave(s, i, taken, stored);
    assert t in s.locks;
    forall j | 0 <= j < |after.callers| && after.callers[j].thread !in after.locks
      ensures after.callers[j].phase.Done?
    {
      if j != i && s.callers[j].thread == t {
        assert j < i;
        assert s.callers[j].phase.Done?;
      }
    }
  }

  // The lock does not look at the cache, the store or the listings.
  lemma LockIgnoresNumbers(s: State, t: State)
    requires LockInv(s) && t.callers == s.callers && t.locks == s.locks
    ensures LockInv(t)
  {
  }

  lemma {:induction false} StepKeepsLock(s: State, e: Event)
    requires LockInv(s) && Enabled(s, e)
    ensures LockInv(Step(s, e))
  {
    hide LockInv;
    match e
    case ArriveE(t) => ArriveKeepsLock(s, t);
    case EnterE(i) =>
      MayEnterMeansEarlierDone(s, i);
      var t := s.callers[i].thread;
      if t in s.cache {
        var counted := s.(cache := s.cache[t := s.cache[t] + 1]);
        LockIgnoresNumbers(s, counted);
        AdvanceKeepsLock(counted, i, Storing(s.cache[t]));
      } else {
        AdvanceKeepsLock(s, i, Listing);
      }
    case ListedE(i, m) =>
      var t := s.callers[i].thread;
      var counted := s.(cache := s.cache[t := m + 2], floor := s.floor[t := m]);
      InsideMeansEarlierDone(s, i);
      LockIgnoresNumbers(s, counted);
      AdvanceKeepsLock(counted, i, Storing(m + 1));
    case ListFailedE(i) => LeaveKeepsLock(s, i, None, false);
    case StoredE(i) =>
      LockIgnoresNumbers(s, Written(s, i));
      LeaveKeepsLock(Written(s, i), i, Some(s.callers[i].phase.sequence), true);
    case StoreFailedE(i, written) =>
      LockIgnoresNumbers(s, Written(s, i));
      LeaveKeepsLock(if written then Written(s, i) else s, i, Some(s.callers[i].phase.sequence), false);
  }

  lemma InsideMeansEarlierDone(s: State, i: nat)
    requires LockInv(s) && i < |s.callers| && s.callers[i].phase != Waiting
    ensures EarlierDone(s.callers, i)
  {
  }

  lemma {:induction false} RunKeepsLock(s: State, events: seq<Event>, t: State)
    requires LockInv(s) && IsRun(s, events, t)
    ensures LockInv(t)
    decreases |events|
  {
    hide LockInv;
    if events != [] {
      StepKeepsLock(s, events[0]);
      RunKeepsLock(Step(s, events[0]), events[1..], t);
    }
  }

  // In every reachable state at most one caller of a thread is inside the
  // lock, and callers enter in the order in which they arrived.
  lemma {:induction false} AtMostOneInside(store: map<string, nat>, events: seq<Event>, s: State, i: nat, j: nat)
    requires IsRun(Initial(store), events, s)
    requires i < j < |s.callers| && s.callers[i].thread == s.callers[j].thread
    ensures !(Inside(s.callers[i].phase) && Inside(s.callers[j].phase))
    ensures s.callers[j].phase != Waiting ==> s.callers[i].phase.Done?
  {
    RunKeepsLock(Initial(store), events, s);
    if s.callers[j].phase != Waiting {
      assert EarlierDone(s.callers, j);
    }
  }

  // The lock is never lost: the first caller of a thread that has not left is
  // inside or may enter.
  lemma {:induction false} FirstActiveCanProceed(store: map<string, nat>, events: seq<Event>, s: State, i: nat)
    requires IsRun(Initial(store), events, s)
    requires i < |s.callers| && !s.callers[i].phase.Done? && EarlierDone(s.callers, i)
    ensures Inside(s.callers[i].phase) || MayEnter(s.callers, i)
  {
    RunKeepsLock(Initial(store), events, s);
    if s.callers[i].previous.Some? {
      DoneChainResolves(s, s.callers[i].previous.value);
    }
  }

  lemma {:induction false} DoneChainResolves(s: State, p: nat)
    requires LockInv(s) && p < |s.callers| && s.callers[p].phase.Done?
    ensures ChainResolved(s.callers, p)
    decreases p
  {
    assert EarlierDone(s.callers, p);
    if s.callers[p].previous.Some? {
      DoneChainResolves(s, s.callers[p].previous.value);
    }
  }

  // ----- The numbers -----

  function Taken(c: Caller): Option<nat> {
    match c.phase
    case Waiting => None
    case Listing => None
    case Storing(n) => Some(n)
    case Done(taken, _) => taken
  }

  // The numbers a thread's callers took, in order of arrival.
  function Numbers(callers: seq<Caller>, t: ThreadId): seq<nat> {
    if callers == [] then []
    else
      var last := callers[|callers| - 1];
      var rest := Numbers(callers[..|callers| - 1], t);
      if last.thread == t && Taken(last).Some? then rest + [Taken(last).value] else rest
  }

  // Numbering starts above what the thread's listing found, leaves no gap,
  // and the cache holds the next number.
  ghost predicate Numbered(s: State, t: ThreadId) {
    var numbers := Numbers(s.callers, t);
    && (t in s.cache <==> numbers != [])
    && (t in s.cache ==> t in s.floor && s.cache[t] == s.floor[t] + 1 + |numbers|)
    && (forall k :: 0 <= k < |numbers| ==> t in s.floor && numbers[k] == s.floor[t] + 1 + k)
  }

  // A caller only lists while no number of its thread is known.
  ghost predicate ListsUncached(s: State) {
    forall i :: 0 <= i < |s.callers| && s.callers[i].phase == Listing ==> s.callers[i].thread !in s.cache
  }

  // A caller that left with success has its event in the store.
  ghost predicate StoredEventsKept(s: State) {
    forall i :: 0 <= i < |s.callers| ==>
      match s.callers[i].phase
      case Done(Some(n), true) =>
        EventId(s.callers[i].thread, n) in s.store && s.store[EventId(s.callers[i].thread, n)] == n
      case _ => true
  }

  ghost predicate NumberInv(s: State) {
    (forall t :: Numbered(s, t)) && ListsUncached(s) && StoredEventsKept(s)
  }

  lemma {:induction false} NumbersIgnorePhase(callers: seq<Caller>, i: nat, phase: Phase, t: ThreadId)
    requires i < |callers|
    requires callers[i].thread != t || Taken(callers[i]) == Taken(callers[i].(phase := phase))
    ensures Numbers(WithPhase(callers, i, phase), t) == Numbers(callers, t)
  {
    var n := |callers| - 1;
    var after := WithPhase(callers, i, phase);
    if i < n {
      NumbersIgnorePhase(callers[..n], i, phase, t);
      assert after[..n] == WithPhase(callers[..n], i, phase);
    } else {
      assert after[..n] == callers[..n];
    }
  }

  lemma {:induction false} NumbersAppend(callers: seq<Caller>, i: nat, n: nat)
    requires i < |callers| && Taken(callers[i]).None?
    requires forall j :: i < j < |callers| && callers[j].thread == callers[i].thread ==> Taken(callers[j]).None?
    ensures Numbers(WithPhase(callers, i, Storing(n)), callers[i].thread) == Numbers(callers, callers[i].thread) + [n]
  {
    var m := |callers| - 1;
    var after := WithPhase(callers, i, Storing(n));
    if i < m {
      NumbersAppend(callers[..m], i, n);
      assert after[..m] == WithPhase(callers[..m], i, Storing(n));
    } else {
      assert after[..m] == callers[..m];
    }
  }

  lemma {:induction false} ArriveKeepsNumbers(s: State, t: ThreadId)
    requires NumberInv(s)
    ensures NumberInv(Arrive(s, t))
  {
    var after := Arrive(s, t);
    assert after.callers[..|s.callers|] == s.callers;
    forall u
      ensures Numbered(after, u)
    {
      assert Numbered(s, u);
    }
  }

  // The state after the caller takes number n.
  function Take(s: State, i: nat, n: nat, floor: nat): State
    requires i < |s.callers|
  {
    var t := s.callers[i].thread;
    SetPhase(s.(cache := s.cache[t := n + 1], floor := s.floor[t := floor]), i, Storing(n))
  }

  // Taking the next number, from the cache or after a listing.
  lemma {:induction false} TakeKeepsNumbers(s: State, i: nat, n: nat, floor: nat)
    requires LockInv(s) && NumberInv(s) && i < |s.callers| && EarlierDone(s.callers, i)
    requires s.callers[i].phase == Waiting || s.callers[i].phase == Listing
    requires var t := s.callers[i].thread;
             if t in s.cache then n == s.cache[t] && t in s.floor && floor == s.floor[t] else n == floor + 1
    ensures NumberInv(Take(s, i, n, floor))
  {
    hide LockInv, Numbered, ListsUncached, StoredEventsKept, EarlierDone, Take;
    forall u
      ensures Numbered(Take(s, i, n, floor), u)
    {
      if u != s.callers[i].thread {
        TakeKeepsOthers(s, i, n, floor, u);
      } else {
        TakeNumbersOwn(s, i, n, floor);
      }
    }
    TakeKeepsRest(s, i, n, floor);
  }

  lemma {:induction false} TakeKeepsOthers(s: State, i: nat, n: nat, floor: nat, u: ThreadId)
    requires i < |s.callers| && u != s.callers[i].thread && Numbered(s, u)
    ensures Numbered(Take(s, i, n, floor), u)
  {
    hide Numbers;
    NumbersIgnorePhase(s.callers, i, Storing(n), u);
  }

  lemma {:induction false} TakeNumbersOwn(s: State, i: nat, n: nat, floor: nat)
    requires LockInv(s) && i < |s.callers| && EarlierDone(s.callers, i) && Numbered(s, s.callers[i].thread)
    requires s.callers[i].phase == Waiting || s.callers[i].phase == Listing
    requires var t := s.callers[i].thread;
             if t in s.cache then n == s.cache[t] && t in s.floor && floor == s.floor[t] else n == floor + 1
    ensures Numbered(Take(s, i, n, floor), s.callers[i].thread)
  {
    hide Numbers, LockInv, EarlierDone;
    LaterCallersWait(s, i);
    NumbersAppend(s.callers, i, n);
  }

  lemma {:induction false} TakeKeepsRest(s: State, i: nat, n: nat, floor: nat)
    requires LockInv(s) && i < |s.callers| && EarlierDone(s.callers, i) && !s.callers[i].phase.Done?
    requires ListsUncached(s) && StoredEventsKept(s)
    ensures ListsUncached(Take(s, i, n, floor)) && StoredEventsKept(Take(s, i, n, floor))
  {
    hide LockInv, EarlierDone;
    LaterCallersWait(s, i);
  }

  lemma LaterCallersWait(s: State, i: nat)
    requires LockInv(s) && i < |s.callers| && !s.callers[i].phase.Done? && EarlierDone(s.callers, i)
    ensures forall j :: 0 <= j < |s.callers| && j != i && s.callers[j].thread == s.callers[i].thread ==>
                        if j < i then s.callers[j].phase.Done? else s.callers[j].phase == Waiting
  {
  }

  lemma {:induction false} ListKeepsNumbers(s: State, i: nat)
    requires NumberInv(s) && i < |s.callers| && s.callers[i].phase == Waiting && s.callers[i].thread !in s.cache
    ensures NumberInv(SetPhase(s, i, Listing))
  {
    var after := SetPhase(s, i, Listing);
    forall u
      ensures Numbered(after, u)
    {
      assert Numbered(s, u);
      NumbersIgnorePhase(s.callers, i, Listing, u);
    }
  }

  lemma {:induction false} WrittenKeepsNumbers(s: State, i: nat)
    requires NumberInv(s) && i < |s.callers| && s.callers[i].phase.Storing?
    ensures NumberInv(Written(s, i))
  {
    var n, t := s.callers[i].phase.sequence, s.callers[i].thread;
    var after := Written(s, i);
    forall u
      ensures Numbered(after, u)
    {
      assert Numbered(s, u);
    }
    forall j, m | 0 <= j < |s.callers| && s.callers[j].phase == Done(Some(m), true)
      ensures EventId(s.callers[j].thread, m) in after.store && after.store[EventId(s.callers[j].thread, m)] == m
    {
      if EventId(s.callers[j].thread, m) == EventId(t, n) {
        EventIdsAreUnique(s.callers[j].thread, m, t, n);
      }
    }
  }

  lemma {:induction false} LeaveKeepsNumbers(s: State, i: nat, taken: Option<nat>, stored: bool)
    requires NumberInv(s) && i < |s.callers| && taken == Taken(s.callers[i]) && Inside(s.callers[i].phase)
    requires stored ==> taken.Some? && EventId(s.callers[i].thread, taken.value) in s.store
                        && s.store[EventId(s.callers[i].thread, taken.value)] == taken.value
    ensures NumberInv(Leave(s, i, taken, stored))
  {
    var after := Leave(s, i, taken, stored);
    assert after.callers == WithPhase(s.callers, i, Done(taken, stored));
    forall u
      ensures Numbered(after, u)
    {
      assert Numbered(s, u);
      NumbersIgnorePhase(s.callers, i, Done(taken, stored), u);
    }
  }

  lemma {:induction false} StepKeepsNumbers(s: State, e: Event)
    requires LockInv(s) && NumberInv(s) && Enabled(s, e)
    ensures NumberInv(Step(s, e))
  {
    hide NumberInv, LockInv;
    match e
    case ArriveE(t) => ArriveKeepsNumbers(s, t);
    case EnterE(i) => EnterKeepsNumbers(s, i);
    case ListedE(i, m) => ListedKeepsNumbers(s, i, m);
    case ListFailedE(i) => LeaveKeepsNumbers(s, i, None, false);
    case StoredE(i) =>
      WrittenKeepsNumbers(s, i);
      LeaveKeepsNumbers(Written(s, i), i, Some(s.callers[i].phase.sequence), true);
    case StoreFailedE(i, written) =>
      WrittenKeepsNumbers(s, i);
      LeaveKeepsNumbers(if written then Written(s, i) else s, i, Some(s.callers[i].phase.sequence), false);
  }

  lemma {:induction false} EnterKeepsNumbers(s: State, i: nat)
    requires LockInv(s) && NumberInv(s) && MayEnter(s.callers, i)
    ensures NumberInv(Enter(s, i))
  {
    hide LockInv, NumberInv;
    MayEnterMeansEarlierDone(s, i);
    var t := s.callers[i].thread;
    if t in s.cache {
      CachedThreadsHaveFloor(s, t);
      TakeKeepsNumbers(s, i, s.cache[t], s.floor[t]);
      assert s.floor[t := s.floor[t]] == s.floor;
    } else {
      ListKeepsNumbers(s, i);
    }
  }

  lemma {:induction false} CachedThreadsHaveFloor(s: State, t: ThreadId)
    requires NumberInv(s) && t in s.cache
    ensures t in s.floor
  {
    assert Numbered(s, t);
  }

  lemma {:induction false} ListedKeepsNumbers(s: State, i: nat, m: nat)
    requires LockInv(s) && NumberInv(s) && i < |s.callers| && s.callers[i].phase == Listing
    ensures NumberInv(Listed(s, i, m))
  {
    InsideMeansEarlierDone(s, i);
    TakeKeepsNumbers(s, i, m + 1, m);
  }

  lemma InitialNumbers(store: map<string, nat>)
    ensures LockInv(Initial(store)) && NumberInv(Initial(store))
  {
  }

  lemma {:induction false} RunKeepsNumbers(s: State, events: seq<Event>, t: State)
    requires LockInv(s) && NumberInv(s) && IsRun(s, events, t)
    ensures LockInv(t) && NumberInv(t)
    decreases |events|
  {
    hide LockInv, NumberInv;
    if events != [] {
      StepKeepsLock(s, events[0]);
      StepKeepsNumbers(s, events[0]);
      RunKeepsNumbers(Step(s, events[0]), events[1..], t);
    }
  }

  // The numbers of a thread, in arrival order, are the consecutive ones above
  // what its first listing found.
  lemma {:induction false} NumbersAreConsecutive(store: map<string, nat>, events: seq<Event>, s: State, t: ThreadId)
    requires IsRun(Initial(store), events, s)
    ensures forall k :: 0 <= k < |Numbers(s.callers, t)| ==>
                        t in s.floor && Numbers(s.callers, t)[k] == s.floor[t] + 1 + k
    ensures forall i :: 0 <= i < |s.callers| && s.callers[i].thread == t && Taken(s.callers[i]).Some? ==>
                        Taken(s.callers[i]).value in Numbers(s.callers, t)
  {
    InitialNumbers(store);
    RunKeepsNumbers(Initial(store), events, s);
    assert Numbered(s, t);
    TakenIsNumbered(s.callers, t);
  }

  lemma {:induction false} TakenIsNumbered(callers: seq<Caller>, t: ThreadId)
    ensures forall i :: 0 <= i < |callers| && callers[i].thread == t && Taken(callers[i]).Some? ==>
                        Taken(callers[i]).value in Numbers(callers, t)
  {
    if callers != [] {
      var n := |callers| - 1;
      TakenIsNumbered(callers[..n], t);
      forall i | 0 <= i < |callers| && callers[i].thread == t && Taken(callers[i]).Some?
        ensures Taken(callers[i]).value in Numbers(callers, t)
      {
        if i < n {
          assert callers[..n][i] == callers[i];
        }
      }
    }
  }

  // Later arrivals on a thread take larger numbers, so no two events of a
  // thread share one.
  lemma {:induction false} LaterTakesLarger(store: map<string, nat>, events: seq<Event>, s: State, i: nat, j: nat)
    requires IsRun(Initial(store), events, s)
    requires i < j < |s.callers| && s.callers[i].thread == s.callers[j].thread
    requires Taken(s.callers[i]).Some? && Taken(s.callers[j]).Some?
    ensures Taken(s.callers[i]).value < Taken(s.callers[j]).value
  {
    hide NumberInv, LockInv;
    InitialNumbers(store);
    RunKeepsNumbers(Initial(store), events, s);
    TakenInOrder(s, i, j);
  }

  lemma {:induction false} TakenInOrder(s: State, i: nat, j: nat)
    requires NumberInv(s)
    requires i < j < |s.callers| && s.callers[i].thread == s.callers[j].thread
    requires Taken(s.callers[i]).Some? && Taken(s.callers[j]).Some?
    ensures Taken(s.callers[i]).value < Taken(s.callers[j]).value
  {
    assert Numbered(s, s.callers[i].thread);
    NumbersInOrder(s.callers, s.callers[i].thread, i, j);
  }

  lemma {:induction false} NumbersInOrder(callers: seq<Caller>, t: ThreadId, i: nat, j: nat)
    requires i < j < |callers| && callers[i].thread == t && callers[j].thread == t
    requires Taken(callers[i]).Some? && Taken(callers[j]).Some?
    ensures exists a, b :: 0 <= a < b < |Numbers(callers, t)|
                           && Numbers(callers, t)[a] == Taken(callers[i]).value
                           && Numbers(callers, t)[b] == Taken(callers[j]).value
  {
    var n := |callers| - 1;
    var init := callers[..n];
    if j < n {
      NumbersInOrder(init, t, i, j);
      var a, b :| 0 <= a < b < |Numbers(init, t)|
                  && Numbers(init, t)[a] == Taken(init[i]).value && Numbers(init, t)[b] == Taken(init[j]).value;
      assert Numbers(callers, t)[a] == Numbers(init, t)[a] && Numbers(callers, t)[b] == Numbers(init, t)[b];
    } else {
      TakenIsNumbered(init, t);
      assert init[i] == callers[i];
      var a :| 0 <= a < |Numbers(init, t)| && Numbers(init, t)[a] == Taken(callers[i]).value;
      assert Numbers(callers, t)[a] == Numbers(init, t)[a];
      assert Numbers(callers, t)[|Numbers(init, t)|] == Taken(callers[j]).value;
    }
  }

  // If no store failed on a thread whose callers have all left, every number
  // taken has its event in the store, so the stored numbers have no gap.
  lemma {:induction false} StoredNumbersAreConsecutive(
    store: map<string, nat>, events: seq<Event>, s: State, t: ThreadId
  )
    requires IsRun(Initial(store), events, s)
    requires forall i :: 0 <= i < |s.callers| && s.callers[i].thread == t ==>
                         s.callers[i].phase.Done? && (s.callers[i].phase.taken.Some? ==> s.callers[i].phase.stored)
    ensures forall n :: n in Numbers(s.callers, t) ==> EventId(t, n) in s.store && s.store[EventId(t, n)] == n
  {
    InitialNumbers(store);
    RunKeepsNumbers(Initial(store), events, s);
    forall n | n in Numbers(s.callers, t)
      ensures EventId(t, n) in s.store && s.store[EventId(t, n)] == n
    {
      var k :| 0 <= k < |Numbers(s.callers, t)| && Numbers(s.callers, t)[k] == n;
      var i := NumberHasTaker(s.callers, t, k);
      assert s.callers[i].phase == Done(Some(n), true);
    }
  }

  lemma {:induction false} NumberHasTaker(callers: seq<Caller>, t: ThreadId, k: nat) returns (i: nat)
    requires k < |Numbers(callers, t)|
    ensures i < |callers| && callers[i].thread == t && Taken(callers[i]) == Some(Numbers(callers, t)[k])
  {
    var n := |callers| - 1;
    var init := callers[..n];
    if k < |Numbers(init, t)| {
      i := NumberHasTaker(init, t, k);
    } else {
      i := n;
    }
  }
}
