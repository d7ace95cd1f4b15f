/**
 The queue object. Its fields are the source's; ghost fields stand for what
 its promises and closures hold. Every method is proved to do to the modelled
 state exactly what the state machine's step does, and keeps the invariant.
 */
module InMemoryQueue {
  import opened Options
  import opened QueueModel
  import opened QueueProofs

  class InMemoryQueue {
    const concurrency: nat
    const maxPending: Option<nat>
    const clock: Clock
    var pending: seq<Job>
    var running: int
    var sequence: nat
    var paused: bool
    var closing: bool
    var closed: bool
    var timer: bool
    var immediate: bool
    var idleWaiters: seq<nat>
    var closePromise: bool
    var nextWaiter: nat
    // Where the jobs are; `pending` and `sequence` are the fields above.
    ghost var ledger: Jobs
    ghost var closeWait: CloseWait
    var samples: nat

    ghost function TheJobs(): Jobs
      reads this
    {
      ledger.(pending := pending, sequence := sequence)
    }

    ghost function Model(): State
      reads this
    {
      State(concurrency, maxPending, TheJobs(), paused, closing, closed, timer, immediate,
            idleWaiters, nextWaiter, closeWait, samples)
    }

    // The counter counts, and the close promise exists while a close waits.
    ghost predicate Consistent()
      reads this
    {
      running == Running(ledger) && (closePromise <==> closeWait != NotClosing)
    }

    ghost predicate Valid()
      reads this
    {
      Consistent() && Inv(Model())
    }

    constructor (concurrency: nat, maxPending: Option<nat>, clock: Clock)
      requires 1 <= concurrency
      ensures Valid() && Model() == Initial(concurrency, maxPending)
      ensures this.clock == clock
    {
      this.concurrency, this.maxPending, this.clock := concurrency, maxPending, clock;
      pending, running, sequence := [], 0, 0;
      paused, closing, closed, timer, immediate := false, false, false, false, false;
      idleWaiters, nextWaiter, closePromise := [], 0, false;
      ledger, closeWait, samples := Jobs([], {}, {}, {}, map[], multiset{}, [], {}, 0), NotClosing, 0;
      new;
      InitialInv(concurrency, maxPending);
    }

    method Now() returns (t: real)
      modifies this`samples
      ensures t == clock(old(samples)) && samples == old(samples) + 1
    {
      t := clock(samples);
      samples := samples + 1;
    }

    // ----- Private helpers -----

    // `push` and then the library sort.
    method InsertPending(entry: Job)
      requires PendingSorted(TheJobs()) && entry.sequence !in Sequences(pending)
      modifies this`pending
      ensures pending == Insert(old(pending), entry)
    {
      var pushed := pending + [entry];
      InsertSorts(pending, entry);
      InsertContents(pending, entry);
      assert forall p :: p in pending ==> p.sequence in Sequences(pending);
      ghost var expected := Insert(pending, entry);
      pending := Sorting(pushed);
      SortedUnique(pending, expected);
    }

    static method Sorting(js: seq<Job>) returns (r: seq<Job>)
      requires DistinctSequences(js)
      ensures Sorted(r) && multiset(r) == multiset(js)
    {
      r := [];
      for i := 0 to |js|
        invariant Sorted(r) && multiset(r) == multiset(js[..i])
      {
        assert js[..i + 1] == js[..i] + [js[i]];
        forall p | p in r
          ensures p.sequence != js[i].sequence
        {
          assert p in multiset(js[..i]);
        }
        InsertSorts(r, js[i]);
        InsertContents(r, js[i]);
        r := Insert(r, js[i]);
      }
      assert js[..|js|] == js;
    }

    // `indexOf` and `splice`; the abort listener of a removed job goes too.
    method RemovePending(q: nat) returns (removed: bool)
      modifies this`pending, this`ledger
      ensures removed <==> q in Sequences(old(pending))
      ensures pending == if removed then Without(old(pending), q) else old(pending)
      ensures ledger == if removed then Unlistened(old(ledger), {q}) else old(ledger)
    {
      var index := 0;
      while index < |pending| && pending[index].sequence != q
        invariant index <= |pending|
        invariant q !in Sequences(pending[..index])
      {
        assert pending[..index + 1] == pending[..index] + [pending[index]];
        index := index + 1;
      }
      if index == |pending| {
        assert pending[..index] == pending;
        return false;
      }
      assert pending[index] in pending;
      CutAt(pending, index, q);
      pending := pending[..index] + pending[index + 1..];
      ledger := Unlistened(ledger, {q});
      return true;
    }

    ghost method SettleEntry(q: nat, how: Settlement)
      modifies this`ledger
      ensures ledger == SettleJob(old(ledger), q, how)
    {
      ledger := SettleJob(ledger, q, how);
    }

    // `splice(0)` and a rejection for each entry.
    method RejectAllPending(reason: Reason)
      modifies this`pending, this`ledger
      ensures TheJobs() == RejectAll(old(TheJobs()), reason)
      ensures pending == [] && Running(ledger) == Running(old(ledger))
    {
      var entries := pending;
      pending := [];
      for i := 0 to |entries|
        invariant pending == [] && ledger == RejectedFirst(old(ledger), entries[..i], reason)
      {
        assert entries[..i + 1] == entries[..i] + [entries[i]];
        RejectedFirstGrows(old(ledger), entries[..i], entries[i], reason);
        ledger := Unlistened(ledger, {entries[i].sequence});
        SettleEntry(entries[i].sequence, Rejected(reason));
      }
      assert entries[..|entries|] == entries;
    }

    method ClearScheduledWork()
      modifies this`timer, this`immediate
      ensures !timer && !immediate && Model() == Unarmed(old(Model()))
    {
      if timer {
        timer := false;
      }
      if immediate {
        immediate := false;
      }
    }

    method ResolveWaiters()
      requires Consistent()
      modifies this`idleWaiters, this`closeWait
      ensures Consistent() && Model() == Release(old(Model()))
    {
      closeWait := if closeWait.WaitingFor? && closeWait.waiter in idleWaiters then DrainDone else closeWait;
      idleWaiters := [];
    }

    method FlushIdleWaiters()
      requires Consistent()
      modifies this`idleWaiters, this`closeWait
      ensures Consistent() && Model() == Flush(old(Model()))
    {
      if |pending| > 0 || running > 0 {
        return;
      }
      if |idleWaiters| == 0 {
        return;
      }
      ResolveWaiters();
    }

    method ArmWork()
      requires Consistent()
      modifies this`timer, this`immediate, this`idleWaiters, this`closeWait, this`samples
      ensures Consistent() && Model() == Arm(old(Model()), clock)
    {
      if closed || paused {
        return;
      }
      if running >= concurrency {
        return;
      }
      ClearScheduledWork();
      if |pending| == 0 {
        FlushIdleWaiters();
        return;
      }
      var now := Now();
      var delay := pending[0].runAt - now;
      if delay > 0.0 {
        timer := true;
        return;
      }
      immediate := true;
    }

    method Start(entry: Job)
      requires Consistent() && entry.sequence !in ledger.executing
      modifies this`running, this`ledger, this`samples
      ensures Consistent() && samples == old(samples) + 1
      ensures ledger == old(ledger).(executing := old(ledger).executing + {entry.sequence},
                                     started := old(ledger).started + [entry])
    {
      running := running + 1;
      ledger := ledger.(executing := ledger.executing + {entry.sequence});
      var startedAt := Now();
      ledger := ledger.(started := ledger.started + [entry]);
    }

    method PumpWork()
      requires Consistent() && JobsInv(TheJobs())
      modifies this
      ensures Consistent() && Model() == Pump(old(Model()), clock)
    {
      if closed || paused {
        return;
      }
      hide JobsInv, Arm, PumpLoop, Flush;
      while running < concurrency && |pending| > 0
        invariant Consistent() && JobsInv(TheJobs()) && !closed && !paused
        invariant PumpLoop(Model(), clock) == PumpLoop(old(Model()), clock)
        decreases |pending|
      {
        var armed := PumpHead();
        if armed {
          return;
        }
      }
      PumpLoopEnd(Model(), clock);
      if |pending| == 0 && running == 0 {
        FlushIdleWaiters();
        return;
      }
      FlushOnlyWhenIdle(Model());
      // The loop only ends with every slot taken or nothing pending, so there
      // is nothing left to arm for.
      assert !(running < concurrency && |pending| > 0);
    }

    // One turn of the pump's loop.
    method PumpHead() returns (armed: bool)
      requires Consistent() && JobsInv(TheJobs()) && running < concurrency && |pending| > 0
      modifies this
      ensures Consistent()
      ensures armed ==> Model() == PumpLoop(old(Model()), clock)
      ensures !armed ==> JobsInv(TheJobs()) && |pending| < |old(pending)|
      ensures !armed ==> PumpLoop(Model(), clock) == PumpLoop(old(Model()), clock)
      ensures !armed ==> closed == old(closed) && paused == old(paused)
    {
      hide JobsInv, Arm, PumpLoop, StartFirst;
      ghost var before := Model();
      PumpLoopStep(before, clock);
      StartFirstKeeps(before.jobs);
      HeadIsNotExecuting(before.jobs);
      var next := pending[0];
      var now := Now();
      assert Model() == before.(samples := before.samples + 1);
      if next.runAt > now {
        ArmWork();
        return true;
      }
      TakeAndStart();
      assert Model() == StartHead(before);
      assert |pending| < |before.jobs.pending|;
      return false;
    }

    // `shift`, drop the abort listener, start.
    method TakeAndStart()
      requires Consistent() && pending != [] && pending[0].sequence !in ledger.executing
      modifies this`pending, this`running, this`ledger, this`samples
      ensures Consistent() && TheJobs() == StartFirst(old(TheJobs())) && samples == old(samples) + 1
      ensures |pending| < |old(pending)|
    {
      var next := pending[0];
      pending := pending[1..];
      ledger := Unlistened(ledger, {next.sequence});
      Start(next);
    }

    // ----- Public methods -----

    method Enqueue(runAt: Option<Number>, priority: Option<Number>, signal: Signal) returns (r: EnqueueResult)
      requires Valid()
      modifies this
      ensures Valid() && Model() == QueueModel.Enqueue(old(Model()), runAt, priority, signal, clock)
      ensures r == EnqueueResultOf(old(Model()), runAt, priority)
    {
      hide Inv, JobsInv, QueueModel.Enqueue, EnqueueResultOf;
      EnqueueKeeps(Model(), runAt, priority, signal, clock);
      InvCoversJobs(Model());
      NextSequenceIsFresh(TheJobs());
      r := Admit(runAt, priority, signal);
    }

    method Admit(runAt: Option<Number>, priority: Option<Number>, signal: Signal) returns (r: EnqueueResult)
      requires Consistent() && PendingSorted(TheJobs()) && sequence + 1 !in Sequences(pending)
      modifies this
      ensures Consistent() && Model() == QueueModel.Enqueue(old(Model()), runAt, priority, signal, clock)
      ensures r == EnqueueResultOf(old(Model()), runAt, priority)
    {
      hide QueueModel.Enqueue, Queued, PendingSorted, Sequences, Normalized;
      EnqueueCases(Model(), runAt, priority, signal, clock);
      if closed || closing {
        return Refused;
      }
      if maxPending.Some? && |pending| >= maxPending.value {
        return Full;
      }
      ghost var before := Model();
      var enqueuedAt := TakeNumber();
      var normalPriority, normalRunAt := Normalized(priority), Normalized(runAt);
      if normalPriority.None? || normalRunAt.None? {
        return TypeError;
      }
      r := Promise(sequence);
      if signal.AbortedSignal? {
        ledger := ledger.(accepted := ledger.accepted + {sequence});
        SettleEntry(sequence, Rejected(Aborted));
      } else {
        var entry := Job(sequence, normalRunAt.value, normalPriority.value, enqueuedAt, signal.LiveSignal?);
        ListenAndInsert(entry, before.(samples := before.samples + 1));
      }
    }

    method TakeNumber() returns (enqueuedAt: real)
      requires Consistent()
      modifies this`sequence, this`samples
      ensures Consistent() && sequence == old(sequence) + 1
      ensures Model() == old(Model()).(jobs := old(TheJobs()).(sequence := sequence), samples := old(samples) + 1)
      ensures enqueuedAt == clock(old(samples))
    {
      sequence := sequence + 1;
      enqueuedAt := Now();
    }

    method ListenAndInsert(entry: Job, ghost before: State)
      requires Consistent() && PendingSorted(before.jobs) && entry.sequence !in Sequences(pending)
      requires Model() == before.(jobs := before.jobs.(sequence := entry.sequence))
      modifies this
      ensures Consistent() && Model() == Queued(before, entry, clock)
    {
      ledger := ledger.(accepted := ledger.accepted + {sequence});
      if entry.hasSignal {
        ledger := ledger.(listening := ledger.listening + {sequence});
      }
      InsertPending(entry);
      hide Arm, Insert;
      assert TheJobs() == AcceptJob(before.jobs, entry);
      ArmWork();
    }

    method Pause()
      requires Valid()
      modifies this
      ensures Valid() && Model() == QueueModel.Pause(old(Model()))
    {
      hide Inv;
      PauseKeeps(Model());
      if paused || closed {
        return;
      }
      paused := true;
      ClearScheduledWork();
    }

    method Resume()
      requires Valid()
      modifies this
      ensures Valid() && Model() == QueueModel.Resume(old(Model()), clock)
    {
      hide Inv, Arm;
      ResumeKeeps(Model(), clock);
      if !paused || closed {
        return;
      }
      paused := false;
      ArmWork();
    }

    // The caller waits when a waiter is returned.
    method Drain() returns (waiter: Option<nat>)
      requires Valid()
      modifies this
      ensures Valid() && Model() == QueueModel.Drain(old(Model()), clock)
      ensures waiter == if Idle(old(TheJobs())) then None else Some(old(nextWaiter))
    {
      hide Inv, QueueModel.Drain;
      DrainKeepsInv(Model(), clock);
      waiter := StartDrain();
    }

    method StartDrain() returns (waiter: Option<nat>)
      requires Consistent()
      modifies this`idleWaiters, this`nextWaiter, this`timer, this`immediate, this`closeWait, this`samples
      ensures Consistent() && Model() == QueueModel.Drain(old(Model()), clock)
      ensures waiter == if Idle(old(TheJobs())) then None else Some(old(nextWaiter))
    {
      if |pending| == 0 && running == 0 {
        return None;
      }
      waiter := Some(nextWaiter);
      idleWaiters := idleWaiters + [nextWaiter];
      nextWaiter := nextWaiter + 1;
      hide Arm;
      ArmWork();
    }

    method Close(drain: bool)
      requires Valid()
      modifies this
      ensures Valid() && Model() == QueueModel.Close(old(Model()), drain, clock)
    {
      hide Inv, CloseNow, CloseDraining;
      CloseKeeps(Model(), drain, clock);
      if closed {
        return;
      }
      if closePromise {
        return;
      }
      if drain {
        CloseWhenDrained();
      } else {
        CloseImmediately();
      }
    }

    method BeginClose()
      requires Consistent()
      modifies this
      ensures Consistent()
      ensures Model() == Arm(old(Model()).(closing := true, paused := false), clock)
    {
      hide Arm;
      ghost var before := Model();
      closing := true;
      paused := false;
      assert Model() == before.(closing := true, paused := false);
      ArmWork();
    }

    method CloseWhenDrained()
      requires Consistent()
      modifies this
      ensures Consistent() && Model() == CloseDraining(old(Model()), clock)
    {
      hide Arm, QueueModel.Drain, Running;
      BeginClose();
      var waiter := StartDrain();
      ghost var drained := Model();
      closePromise := true;
      closeWait := if waiter.None? then DrainDone else WaitingFor(waiter.value);
      assert Model() == drained.(closeWait := closeWait);
    }

    method CloseImmediately()
      requires Consistent()
      modifies this
      ensures Consistent() && Model() == CloseNow(old(Model()))
    {
      hide RejectAll, Release, Unarmed;
      ghost var before := Model();
      MarkClosed();
      ClearScheduledWork();
      ResolveWaiters();
      ReleaseUnarmed(before);
    }

    // Up to the point where work is disarmed.
    method MarkClosed()
      requires Consistent()
      modifies this`pending, this`ledger, this`paused, this`closing, this`closed
      ensures Consistent()
      ensures Model() ==
              old(Model()).(jobs := RejectAll(old(TheJobs()), QueueClosed), paused := false, closed := true, closing := false)
    {
      hide RejectAll;
      closing := true;
      RejectAllPending(QueueClosed);
      paused := false;
      closed := true;
      closing := false;
    }

    method Clear() returns (count: nat)
      requires Valid()
      modifies this
      ensures Valid() && Model() == QueueModel.Clear(old(Model()), clock)
      ensures count == |old(pending)|
    {
      hide Inv, RejectAll, Arm;
      ClearKeeps(Model(), clock);
      if |pending| == 0 {
        return 0;
      }
      count := |pending|;
      RejectAllPending(Cleared);
      ArmWork();
    }

    // ----- Callbacks -----

    // The abort listener of the job with sequence number q.
    method AbortFires(q: nat)
      requires Valid() && q in ledger.listening
      modifies this
      ensures Valid() && Model() == QueueModel.AbortFires(old(Model()), q, clock)
    {
      hide Inv, QueueModel.AbortFires;
      AbortKeeps(Model(), q, clock);
      RunListener(q);
    }

    method RunListener(q: nat)
      requires Consistent() && q in ledger.listening
      modifies this
      ensures Consistent() && Model() == QueueModel.AbortFires(old(Model()), q, clock)
    {
      hide Arm, Without, Sequences;
      assert ledger.listening - {q} - {q} == ledger.listening - {q};
      ledger := Unlistened(ledger, {q});
      var removed := RemovePending(q);
      if removed {
        SettleEntry(q, Rejected(Aborted));
        ArmWork();
      }
    }

    method TimerFires()
      requires Valid() && timer
      modifies this
      ensures Valid() && Model() == QueueModel.TimerFires(old(Model()), clock)
    {
      hide Inv, JobsInv, PumpLoop;
      TimerKeeps(Model(), clock);
      InvCoversJobs(Model());
      timer := false;
      PumpWork();
    }

    method ImmediateFires()
      requires Valid() && immediate
      modifies this
      ensures Valid() && Model() == QueueModel.ImmediateFires(old(Model()), clock)
    {
      hide Inv, JobsInv, PumpLoop;
      ImmediateKeeps(Model(), clock);
      InvCoversJobs(Model());
      immediate := false;
      PumpWork();
    }

    // The handler of a started job returns or throws.
    method HandlerEnds(q: nat, ok: bool)
      requires Valid() && q in ledger.executing
      modifies this
      ensures Valid() && Model() == QueueModel.HandlerEnds(old(Model()), q, ok)
    {
      hide Inv, Placed, EndJob;
      HandlerEndsKeeps(Model(), q, ok);
      InvPlaces(Model());
      EndJobKeepsSlot(TheJobs(), q, ok);
      EndEntry(q, ok);
    }

    ghost method EndEntry(q: nat, ok: bool)
      modifies this`ledger
      ensures TheJobs() == EndJob(old(TheJobs()), q, ok)
    {
      ledger := ledger.(executing := ledger.executing - {q}, unwinding := ledger.unwinding + {q});
      SettleEntry(q, if ok then Fulfilled else Rejected(HandlerError));
    }

    // The last continuation of a started job. The counter never goes negative.
    method SlotFreed(q: nat)
      requires Valid() && q in ledger.unwinding
      modifies this
      ensures Valid() && Model() == QueueModel.SlotFreed(old(Model()), q, clock)
    {
      hide Inv, Arm;
      SlotFreedKeeps(Model(), q, clock);
      assert |ledger.unwinding - {q}| == |ledger.unwinding| - 1;
      running := running - 1;
      assert running >= 0;
      ledger := ledger.(unwinding := ledger.unwinding - {q});
      ArmWork();
    }

    // The continuation of a draining close.
    method FinishClose()
      requires Valid() && closeWait.DrainDone?
      modifies this
      ensures Valid() && Model() == QueueModel.FinishClose(old(Model()))
    {
      hide Inv;
      FinishCloseKeeps(Model());
      closed := true;
      closing := false;
      ClearScheduledWork();
      closePromise := false;
      closeWait := NotClosing;
    }
  }

  lemma {:induction false} EnqueueCases(
    s: State, runAt: Option<Number>, priority: Option<Number>, signal: Signal, clock: Clock
  )
    ensures var t := QueueModel.Enqueue(s, runAt, priority, signal, clock);
            var next := s.(samples := s.samples + 1);
            match EnqueueResultOf(s, runAt, priority)
            case Refused => t == s
            case Full => t == s
            case TypeError => t == next.(jobs := s.jobs.(sequence := s.jobs.sequence + 1))
            case Promise(q) =>
              if signal.AbortedSignal? then t == next.(jobs := RefuseAborted(s.jobs, q))
              else t == Queued(next, Job(q, Normalized(runAt).value, Normalized(priority).value, clock(s.samples),
                                         signal.LiveSignal?), clock)
  {
    hide Queued, Normalized, RefuseAborted;
  }

  // Disarming and releasing touch different fields.
  lemma {:induction false} ReleaseUnarmed(s: State)
    ensures var t := s.(jobs := RejectAll(s.jobs, QueueClosed), paused := false, closed := true, closing := false);
            Release(Unarmed(t)) == Unarmed(Release(t))
  {
    hide RejectAll;
  }

  lemma FlushOnlyWhenIdle(s: State)
    ensures !Idle(s.jobs) ==> Flush(s) == s
  {
  }

  lemma {:induction false} HeadIsNotExecuting(j: Jobs)
    requires JobsInv(j) && j.pending != []
    ensures j.pending[0].sequence !in j.executing
  {
    assert j.pending[0].sequence in Sequences(j.pending);
  }

  lemma NextSequenceIsFresh(j: Jobs)
    requires JobsInv(j)
    ensures j.sequence + 1 !in Sequences(j.pending) && PendingSorted(j)
  {
  }

  function Unlistened(j: Jobs, qs: set<nat>): Jobs {
    j.(listening := j.listening - qs)
  }

  // The ledger after the first few pending jobs have been rejected.
  function RejectedFirst(j: Jobs, js: seq<Job>, reason: Reason): Jobs {
    j.(outcome := j.outcome + RejectedMap(Sequences(js), reason),
       settlements := j.settlements + multiset(SequenceList(js)),
       listening := j.listening - Sequences(js))
  }

  lemma {:induction false} SequencesAppend(js: seq<Job>, job: Job)
    ensures Sequences(js + [job]) == Sequences(js) + {job.sequence}
  {
    assert job in js + [job];
  }

  lemma RejectedMapGrows(m: map<nat, Settlement>, all: set<nat>, q: nat, reason: Reason)
    ensures (m + RejectedMap(all, reason))[q := Rejected(reason)] == m + RejectedMap(all + {q}, reason)
  {
  }

  lemma {:induction false} RejectedFirstGrows(j: Jobs, js: seq<Job>, job: Job, reason: Reason)
    ensures RejectedFirst(j, js + [job], reason) ==
            SettleJob(Unlistened(RejectedFirst(j, js, reason), {job.sequence}), job.sequence, Rejected(reason))
  {
    hide Sequences, SequenceList, RejectedMap;
    var all := Sequences(js);
    SequenceListAppend(js, job);
    SequencesAppend(js, job);
    RejectedMapGrows(j.outcome, all, job.sequence, reason);
    assert j.listening - (all + {job.sequence}) == j.listening - all - {job.sequence};
  }

  lemma {:induction false} CutAt(js: seq<Job>, index: nat, q: nat)
    requires index < |js| && js[index].sequence == q && q !in Sequences(js[..index])
    ensures js[..index] + js[index + 1..] == Without(js, q)
  {
    if index > 0 {
      assert js[..index][0] == js[0];
      assert js[..index] == [js[0]] + js[1..][..index - 1];
      CutAt(js[1..], index - 1, q);
      assert js[index + 1..] == js[1..][index..];
    }
  }

  lemma {:induction false} SequenceListAppend(js: seq<Job>, job: Job)
    ensures SequenceList(js + [job]) == SequenceList(js) + [job.sequence]
  {
    if js != [] {
      assert (js + [job])[1..] == js[1..] + [job];
      SequenceListAppend(js[1..], job);
    }
  }
}
