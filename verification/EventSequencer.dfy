/**
 The server's two maps and the code between its awaits, each stretch proved
 to be the protocol step it stands for.
 */
module EventSequencer {

  import opened Options
  import opened EventIds
  import opened EventSequence

  class EventSequencer {
    var eventSequenceLocks: map<ThreadId, nat>
    var eventSequenceByThread: map<ThreadId, nat>
    // Names the next chained promise.
    var arrivals: nat
    ghost var callers: seq<Caller>
    ghost var store: map<string, nat>
    ghost var floor: map<ThreadId, nat>

    ghost function Model(): State
      reads this
    {
      State(callers, eventSequenceLocks, eventSequenceByThread, store, floor)
    }

    ghost predicate Valid()
      reads this
    {
      arrivals == |callers| && LockInv(Model()) && NumberInv(Model())
    }

    constructor (ghost stored: map<string, nat>)
      ensures Valid() && Model() == Initial(stored)
    {
      eventSequenceLocks, eventSequenceByThread, arrivals := map[], map[], 0;
      callers, store, floor := [], stored, map[];
      new;
      InitialNumbers(stored);
    }

    // Up to `await previous`: read the entry, chain, install the new entry.
    method Arrive(threadId: ThreadId) returns (previous: Option<nat>, chained: nat)
      requires Valid()
      modifies this
      ensures Valid() && Model() == Step(old(Model()), ArriveE(threadId))
      ensures chained == |old(callers)| && callers[chained].previous == previous
    {
      hide LockInv, NumberInv;
      StepKeepsLock(Model(), ArriveE(threadId));
      StepKeepsNumbers(Model(), ArriveE(threadId));
      previous := if threadId in eventSequenceLocks then Some(eventSequenceLocks[threadId]) else None;
      chained := arrivals;
      arrivals := arrivals + 1;
      callers := callers + [Caller(threadId, previous, Waiting)];
      eventSequenceLocks := eventSequenceLocks[threadId := chained];
    }

    // After `await previous`: a cached number is taken without waiting.
    method Enter(threadId: ThreadId, self: nat) returns (sequence: Option<nat>)
      requires Valid() && MayEnter(callers, self) && callers[self].thread == threadId
      modifies this
      ensures Valid() && Model() == Step(old(Model()), EnterE(self))
      ensures sequence == if threadId in old(eventSequenceByThread) then Some(old(eventSequenceByThread)[threadId]) else None
    {
      hide LockInv, NumberInv;
      StepKeepsLock(Model(), EnterE(self));
      StepKeepsNumbers(Model(), EnterE(self));
      if threadId in eventSequenceByThread {
        var cached := eventSequenceByThread[threadId];
        eventSequenceByThread := eventSequenceByThread[threadId := cached + 1];
        callers := callers[self := callers[self].(phase := Storing(cached))];
        return Some(cached);
      }
      callers := callers[self := callers[self].(phase := Listing)];
      return None;
    }

    // After the list answered with the sequences of the thread's events.
    method ListReturned(threadId: ThreadId, self: nat, events: seq<nat>) returns (sequence: nat)
      requires Valid() && self < |callers| && callers[self] == Caller(threadId, callers[self].previous, Listing)
      requires forall id :: id in store && HasPrefix(id, threadId + ":") ==> store[id] in events
      requires forall n :: n in events ==> exists id :: id in store && HasPrefix(id, threadId + ":") && store[id] == n
      modifies this
      ensures 1 <= sequence && old(Enabled(Model(), ListedE(self, sequence - 1)))
      ensures Valid() && Model() == Step(old(Model()), ListedE(self, sequence - 1))
    {
      hide LockInv, NumberInv;
      var max := 0;
      for k := 0 to |events|
        invariant forall j :: 0 <= j < k ==> events[j] <= max
        invariant max == 0 || max in events
      {
        if events[k] > max {
          max := events[k];
        }
      }
      assert IsMaximum(store, threadId + ":", max);
      assert Enabled(Model(), ListedE(self, max));
      StepKeepsLock(Model(), ListedE(self, max));
      StepKeepsNumbers(Model(), ListedE(self, max));
      sequence := max + 1;
      eventSequenceByThread := eventSequenceByThread[threadId := sequence + 1];
      floor := floor[threadId := max];
      callers := callers[self := callers[self].(phase := Storing(sequence))];
    }

    // The store reported success: the callback returns and the lock is left.
    method Stored(threadId: ThreadId, self: nat)
      requires Valid() && self < |callers| && callers[self].phase.Storing? && callers[self].thread == threadId
      modifies this
      ensures Valid() && Model() == Step(old(Model()), StoredE(self))
    {
      hide LockInv, NumberInv;
      StepKeepsLock(Model(), StoredE(self));
      StepKeepsNumbers(Model(), StoredE(self));
      ghost var n := callers[self].phase.sequence;
      store := store[EventId(threadId, n) := n];
      ReleaseLock(threadId, self, Some(n), true);
    }

    // The `finally` block: release, then delete the entry if it is our own.
    method ReleaseLock(threadId: ThreadId, self: nat, ghost taken: Option<nat>, ghost stored: bool)
      requires self < |callers| && callers[self].thread == threadId
      modifies this`callers, this`eventSequenceLocks
      ensures Model() == Leave(old(Model()), self, taken, stored) && |callers| == |old(callers)|
    {
      callers := callers[self := callers[self].(phase := Done(taken, stored))];
      if threadId in eventSequenceLocks && eventSequenceLocks[threadId] == self {
        eventSequenceLocks := eventSequenceLocks - {threadId};
      }
    }

    // The callback failed, before or after a number was taken.
    method Failed(threadId: ThreadId, self: nat, ghost written: bool)
      requires Valid() && self < |callers| && Inside(callers[self].phase) && callers[self].thread == threadId
      modifies this
      ensures Valid()
      ensures Model() == Step(old(Model()), if old(callers[self].phase.Listing?) then ListFailedE(self)
                                            else StoreFailedE(self, written))
    {
      hide LockInv, NumberInv;
      ghost var e := if callers[self].phase.Listing? then ListFailedE(self) else StoreFailedE(self, written);
      StepKeepsLock(Model(), e);
      StepKeepsNumbers(Model(), e);
      ghost var taken := Taken(callers[self]);
      if taken.Some? && written {
        store := store[EventId(threadId, taken.value) := taken.value];
      }
      ReleaseLock(threadId, self, taken, false);
    }
  }
}
