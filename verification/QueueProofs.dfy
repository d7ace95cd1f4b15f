/**
 What every step of the queue keeps, and what follows over whole runs.
 */
module QueueProofs {
  import opened Options
  import opened QueueModel

  // ----- Invariants of the jobs -----

  // Every accepted job is in exactly one of pending, executing and settled,
  // and its promise was settled once if it has an outcome and never
  // otherwise. Abort listeners are registered for pending jobs only.
  ghost predicate Placed(j: Jobs) {
    && j.accepted == Sequences(j.pending) + j.executing + j.outcome.Keys
    && Sequences(j.pending) !! j.executing
    && Sequences(j.pending) !! j.outcome.Keys
    && j.executing !! j.outcome.Keys
    && j.unwinding <= j.outcome.Keys
    && (forall q :: q in j.accepted ==> q <= j.sequence)
  }

  ghost predicate SettledOnce(j: Jobs) {
    forall q :: j.settlements[q] == if q in j.outcome then 1 else 0
  }

  ghost predicate Listening(j: Jobs) {
    forall q :: q in j.listening <==> exists p :: p in j.pending && p.sequence == q && p.hasSignal
  }

  ghost predicate PendingSorted(j: Jobs) {
    Sorted(j.pending) && DistinctSequences(j.pending)
  }

  // No job starts while one enqueued earlier that should go first is pending.
  ghost predicate StartedInOrder(j: Jobs) {
    && (forall i, k :: 0 <= i < k < |j.started| && j.started[k].sequence <= j.started[i].sequence ==>
          Before(j.started[i], j.started[k]))
    && (forall i, p :: 0 <= i < |j.started| && p in j.pending && p.sequence <= j.started[i].sequence ==>
          Before(j.started[i], p))
  }

  predicate ByHandler(how: Settlement) {
    how == Fulfilled || how == Rejected(HandlerError)
  }

  // A started job is executing or was settled by its handler; abort, clear
  // and close only ever settle jobs that have not started.
  ghost predicate OutcomesExplained(j: Jobs) {
    && j.executing <= Sequences(j.started)
    && Sequences(j.pending) !! Sequences(j.started)
    && Sequences(j.started) <= j.accepted
    && (forall q :: q in j.outcome ==> (q in Sequences(j.started) <==> ByHandler(j.outcome[q])))
  }

  ghost predicate JobsInv(j: Jobs) {
    Placed(j) && SettledOnce(j) && Listening(j) && PendingSorted(j) && StartedInOrder(j) && OutcomesExplained(j)
  }

  // ----- Each change of the jobs keeps them -----

  lemma {:induction false} AcceptJobKeeps(j: Jobs, job: Job)
    requires JobsInv(j) && job.sequence == j.sequence + 1
    ensures JobsInv(AcceptJob(j, job))
    ensures |AcceptJob(j, job).pending| == |j.pending| + 1
  {
    var k := AcceptJob(j, job);
    InsertSorts(j.pending, job);
    InsertContents(j.pending, job);
    assert Sequences(k.pending) == Sequences(j.pending) + {job.sequence};
    InsertDistinct(j.pending, job);
    forall q
      ensures q in k.listening <==> exists p :: p in k.pending && p.sequence == q && p.hasSignal
    {
      if q == job.sequence {
        assert job in k.pending;
      } else {
        assert q in k.listening <==> q in j.listening;
      }
    }
    StartedBelow(j);
    assert forall i :: 0 <= i < |j.started| ==> j.started[i].sequence in Sequences(j.started);
  }

  lemma StartedBelow(j: Jobs)
    requires JobsInv(j)
    ensures forall q :: q in Sequences(j.started) ==> q <= j.sequence
  {
  }

  lemma {:induction false} InsertDistinct(js: seq<Job>, job: Job)
    requires DistinctSequences(js) && job.sequence !in Sequences(js)
    ensures DistinctSequences(Insert(js, job))
  {
    assert forall p :: p in js ==> p.sequence != job.sequence;
    if js == [] || Before(job, js[0]) {
      DistinctCons(job, js);
    } else {
      var head, rest := js[0], js[1..];
      assert js == [head] + rest;
      InsertDistinct(rest, job);
      InsertContents(rest, job);
      DistinctCons(head, Insert(rest, job));
    }
  }

  lemma {:induction false} RefuseAbortedKeeps(j: Jobs)
    requires JobsInv(j)
    ensures JobsInv(RefuseAborted(j, j.sequence + 1))
  {
    StartedBelow(j);
  }

  lemma SkipSequenceKeeps(j: Jobs)
    requires JobsInv(j)
    ensures JobsInv(j.(sequence := j.sequence + 1))
  {
  }

  lemma {:induction false} StartFirstPlaces(j: Jobs)
    requires Placed(j) && Listening(j) && OutcomesExplained(j) && PendingSorted(j) && j.pending != []
    ensures Placed(StartFirst(j)) && Listening(StartFirst(j)) && OutcomesExplained(StartFirst(j))
    ensures Running(StartFirst(j)) == Running(j) + 1
  {
    var job, rest, k := j.pending[0], j.pending[1..], StartFirst(j);
    assert j.pending == [job] + rest;
    assert Sequences(j.pending) == {job.sequence} + Sequences(rest);
    FirstIsLeast(j.pending);
    assert Sequences(k.started) == Sequences(j.started) + {job.sequence};
    assert forall p :: p in j.pending <==> p == job || p in rest;
  }

  lemma {:induction false} StartFirstKeepsOrder(j: Jobs)
    requires StartedInOrder(j) && PendingSorted(j) && j.pending != []
    ensures StartedInOrder(StartFirst(j)) && PendingSorted(StartFirst(j))
  {
    var job, rest, k := j.pending[0], j.pending[1..], StartFirst(j);
    assert j.pending == [job] + rest;
    FirstIsLeast(j.pending);
    assert job in j.pending;
    assert forall p :: p in rest ==> p in j.pending;
    assert forall i :: 0 <= i < |j.started| ==> k.started[i] == j.started[i];
  }

  lemma {:induction false} StartFirstKeeps(j: Jobs)
    requires JobsInv(j) && j.pending != []
    ensures JobsInv(StartFirst(j))
    ensures Running(StartFirst(j)) == Running(j) + 1
  {
    StartFirstPlaces(j);
    StartFirstKeepsOrder(j);
  }

  lemma FirstIsLeast(js: seq<Job>)
    requires js != [] && Sorted(js) && DistinctSequences(js)
    ensures forall p :: p in js[1..] ==> Before(js[0], p) && p.sequence != js[0].sequence
    ensures Sorted(js[1..]) && DistinctSequences(js[1..])
    ensures js[0].sequence !in Sequences(js[1..])
  {
  }

  lemma {:induction false} SequenceListCounts(js: seq<Job>)
    requires DistinctSequences(js)
    ensures forall q :: multiset(SequenceList(js))[q] == if q in Sequences(js) then 1 else 0
  {
    if js != [] {
      var rest := js[1..];
      assert js == [js[0]] + rest;
      SequenceListCounts(rest);
      assert Sequences(js) == {js[0].sequence} + Sequences(rest);
      assert js[0].sequence !in Sequences(rest);
      assert SequenceList(js) == [js[0].sequence] + SequenceList(rest);
    }
  }

  lemma {:induction false} RejectAllKeeps(j: Jobs, reason: Reason)
    requires JobsInv(j) && reason != HandlerError
    ensures JobsInv(RejectAll(j, reason))
  {
    SequenceListCounts(j.pending);
    var k := RejectAll(j, reason);
    forall q
      ensures q !in k.listening
    {
      assert q in j.listening ==> q in Sequences(j.pending);
    }
  }

  lemma {:induction false} WithoutContents(js: seq<Job>, q: nat)
    requires DistinctSequences(js) && q in Sequences(js)
    ensures |Without(js, q)| == |js| - 1
    ensures forall p :: p in Without(js, q) <==> p in js && p.sequence != q
  {
    var head, rest := js[0], js[1..];
    assert js == [head] + rest;
    assert forall p :: p in rest ==> p.sequence != head.sequence;
    if head.sequence != q {
      WithoutContents(rest, q);
    }
  }

  lemma {:induction false} WithoutRemoves(js: seq<Job>, q: nat)
    requires Sorted(js) && DistinctSequences(js) && q in Sequences(js)
    ensures Sorted(Without(js, q)) && DistinctSequences(Without(js, q))
  {
    var head, rest := js[0], js[1..];
    assert js == [head] + rest;
    FirstIsLeast(js);
    if head.sequence != q {
      WithoutRemoves(rest, q);
      WithoutContents(rest, q);
      var less := Without(rest, q);
      SortedCons(head, less);
      DistinctCons(head, less);
    }
  }

  lemma {:induction false} DistinctCons(head: Job, rest: seq<Job>)
    requires DistinctSequences(rest) && forall p :: p in rest ==> p.sequence != head.sequence
    ensures DistinctSequences([head] + rest)
  {
    var js := [head] + rest;
    forall i, k | 0 <= i < k < |js|
      ensures js[i].sequence != js[k].sequence
    {
      assert js[k] == rest[k - 1];
      assert js[k] in rest;
    }
  }

  lemma {:induction false} AbortPendingKeeps(j: Jobs, q: nat)
    requires JobsInv(j) && q in Sequences(j.pending)
    ensures JobsInv(AbortPending(j, q))
    ensures |AbortPending(j, q).pending| == |j.pending| - 1
  {
    WithoutRemoves(j.pending, q);
    WithoutContents(j.pending, q);
    var k := AbortPending(j, q);
    assert Sequences(k.pending) == Sequences(j.pending) - {q};
    assert Listening(k) by {
      forall r
        ensures r in k.listening <==> exists p :: p in k.pending && p.sequence == r && p.hasSignal
      {
        if r != q {
          assert r in k.listening <==> r in j.listening;
        }
      }
    }
  }

  lemma {:induction false} EndJobKeeps(j: Jobs, q: nat, ok: bool)
    requires JobsInv(j) && q in j.executing
    ensures JobsInv(EndJob(j, q, ok))
  {
    assert q !in j.outcome;
    assert EndJob(j, q, ok).outcome.Keys == j.outcome.Keys + {q};
  }

  lemma {:induction false} EndJobKeepsSlot(j: Jobs, q: nat, ok: bool)
    requires Placed(j) && q in j.executing
    ensures Running(EndJob(j, q, ok)) == Running(j)
  {
    assert q !in j.unwinding;
  }

  lemma FreeSlotKeeps(j: Jobs, q: nat)
    requires JobsInv(j) && q in j.unwinding
    ensures JobsInv(FreeSlot(j, q))
    ensures Running(FreeSlot(j, q)) == Running(j) - 1
  {
  }

  // ----- Invariants of the queue -----

  ghost predicate WithinLimits(s: State) {
    && 1 <= s.concurrency
    && Running(s.jobs) <= s.concurrency
    && (s.maxPending.Some? ==> |s.jobs.pending| <= s.maxPending.value)
  }

  ghost predicate CloseConsistent(s: State) {
    && (s.closed ==> s.jobs.pending == [] && s.closeWait == NotClosing && !s.closing)
    && (s.closeWait != NotClosing ==> s.closing)
    && (s.closeWait.DrainDone? ==> Idle(s.jobs) && s.waiters == [])
    && (s.closeWait.WaitingFor? ==> s.closeWait.waiter in s.waiters)
    && (forall w :: w in s.waiters ==> w < s.nextWaiter)
  }

  ghost predicate Base(s: State) {
    JobsInv(s.jobs) && WithinLimits(s) && CloseConsistent(s)
  }

  // There is work that a free slot could take.
  predicate WorkWaits(s: State) {
    !s.closed && !s.paused && s.jobs.pending != [] && Running(s.jobs) < s.concurrency
  }

  // No lost wakeup, and no idle one.
  ghost predicate WakeupArmed(s: State) {
    && !(s.timer && s.immediate)
    && (s.timer || s.immediate <==> WorkWaits(s))
  }

  // An idle queue that may act keeps no drain() caller waiting.
  ghost predicate DrainPrompt(s: State) {
    Idle(s.jobs) && !s.paused && !s.closed ==> s.waiters == []
  }

  ghost predicate ClosingExact(s: State) {
    s.closing ==> s.closeWait != NotClosing
  }

  ghost predicate Inv(s: State) {
    Base(s) && WakeupArmed(s) && DrainPrompt(s) && ClosingExact(s)
  }

  // Wakeups are never left over where arming does nothing.
  predicate MayArm(s: State) {
    s.closed || s.paused || Running(s.jobs) >= s.concurrency ==> !s.timer && !s.immediate
  }

  lemma InitialInv(concurrency: nat, maxPending: Option<nat>)
    requires 1 <= concurrency
    ensures Inv(Initial(concurrency, maxPending))
  {
  }

  // Arming repairs the wakeup and the promptness of drain().
  lemma ArmEstablishes(s: State, clock: Clock)
    requires WithinLimits(s) && CloseConsistent(s) && MayArm(s)
    ensures var t := Arm(s, clock);
            && t.jobs == s.jobs && WithinLimits(t) && CloseConsistent(t) && WakeupArmed(t) && DrainPrompt(t)
            && (ClosingExact(s) ==> ClosingExact(t))
  {
  }

  lemma {:induction false} PumpLoopKeeps(s: State, clock: Clock)
    requires Base(s) && ClosingExact(s) && !s.timer && !s.immediate && !s.closed && !s.paused
    ensures Inv(PumpLoop(s, clock))
    decreases |s.jobs.pending|
  {
    if Running(s.jobs) < s.concurrency && s.jobs.pending != [] {
      if s.jobs.pending[0].runAt > clock(s.samples) {
        ArmEstablishes(s.(samples := s.samples + 1), clock);
      } else {
        StartFirstKeeps(s.jobs);
        PumpLoopKeeps(StartHead(s), clock);
      }
    }
  }

  // ----- Every step keeps the invariant -----

  lemma {:induction false} QueueingKeeps(s: State, job: Job, clock: Clock)
    requires Inv(s) && !s.closed && !s.closing && job.sequence == s.jobs.sequence + 1
    requires s.maxPending.Some? ==> |s.jobs.pending| < s.maxPending.value
    ensures Inv(Queued(s, job, clock))
  {
    AcceptJobKeeps(s.jobs, job);
    var t := s.(jobs := AcceptJob(s.jobs, job));
    assert Running(t.jobs) == Running(s.jobs);
    assert CloseConsistent(t);
    ArmEstablishes(t, clock);
  }

  lemma SampleKeeps(s: State)
    requires Inv(s)
    ensures Inv(s.(samples := s.samples + 1))
  {
  }

  // Jobs settled on arrival, or only numbered, leave the queue as it was.
  lemma NumberingKeeps(s: State, j: Jobs)
    requires Inv(s) && JobsInv(j)
    requires j.pending == s.jobs.pending && j.executing == s.jobs.executing && j.unwinding == s.jobs.unwinding
    ensures Inv(s.(jobs := j))
  {
  }

  lemma {:induction false} EnqueueKeeps(
    s: State, runAt: Option<Number>, priority: Option<Number>, signal: Signal, clock: Clock
  )
    requires Inv(s)
    ensures Inv(Enqueue(s, runAt, priority, signal, clock))
  {
    hide Inv;
    var t := s.(samples := s.samples + 1);
    var after := Enqueue(s, runAt, priority, signal, clock);
    var r := EnqueueResultOf(s, runAt, priority);
    if r.Promise? && !signal.AbortedSignal? {
      var job := Job(r.sequence, Normalized(runAt).value, Normalized(priority).value, clock(s.samples), signal.LiveSignal?);
      assert after == Queued(t, job, clock);
      SampleKeeps(s);
      QueueingKeeps(t, job, clock);
    } else {
      UnqueuedKeeps(s, runAt, priority, signal, clock);
    }
  }

  lemma InvCoversJobs(s: State)
    requires Inv(s)
    ensures JobsInv(s.jobs)
  {
  }

  lemma {:induction false} UnqueuedKeeps(
    s: State, runAt: Option<Number>, priority: Option<Number>, signal: Signal, clock: Clock
  )
    requires Inv(s) && (EnqueueResultOf(s, runAt, priority).Promise? ==> signal.AbortedSignal?)
    ensures Inv(Enqueue(s, runAt, priority, signal, clock))
  {
    hide Inv, JobsInv;
    var t := s.(samples := s.samples + 1);
    var after := Enqueue(s, runAt, priority, signal, clock);
    var r := EnqueueResultOf(s, runAt, priority);
    InvCoversJobs(s);
    if r.TypeError? {
      assert after == t.(jobs := s.jobs.(sequence := s.jobs.sequence + 1));
      SampleKeeps(s);
      SkipSequenceKeeps(s.jobs);
      NumberingKeeps(t, s.jobs.(sequence := s.jobs.sequence + 1));
    } else if r.Promise? {
      assert after == t.(jobs := RefuseAborted(s.jobs, r.sequence));
      SampleKeeps(s);
      RefuseAbortedKeeps(s.jobs);
      NumberingKeeps(t, RefuseAborted(s.jobs, r.sequence));
    }
  }

  lemma {:induction false} DrainKeeps(s: State, clock: Clock)
    requires Base(s) && WakeupArmed(s) && DrainPrompt(s)
    ensures var t := Drain(s, clock);
            Base(t) && WakeupArmed(t) && DrainPrompt(t) && (ClosingExact(s) ==> ClosingExact(t))
    ensures !Idle(s.jobs) ==> s.nextWaiter in Drain(s, clock).waiters
  {
    if !Idle(s.jobs) {
      ArmEstablishes(s.(waiters := s.waiters + [s.nextWaiter], nextWaiter := s.nextWaiter + 1), clock);
    }
  }

  lemma {:induction false} CloseNowKeeps(s: State)
    requires Inv(s) && !s.closed && s.closeWait == NotClosing
    ensures Inv(CloseNow(s))
  {
    hide JobsInv;
    InvCoversJobs(s);
    RejectAllKeeps(s.jobs, QueueClosed);
  }

  lemma {:induction false} CloseDrainingKeeps(s: State, clock: Clock)
    requires Inv(s) && !s.closed && s.closeWait == NotClosing
    ensures Inv(CloseDraining(s, clock))
  {
    hide JobsInv, Arm;
    var begun := s.(closing := true, paused := false);
    ArmEstablishes(begun, clock);
    DrainKeeps(Arm(begun, clock), clock);
    ArmKeepsFrame(begun, clock);
    DrainFrame(Arm(begun, clock), clock);
  }

  lemma {:induction false} CloseKeeps(s: State, drain: bool, clock: Clock)
    requires Inv(s)
    ensures Inv(Close(s, drain, clock))
  {
    hide Inv, CloseNow, CloseDraining;
    if !s.closed && s.closeWait == NotClosing {
      CloseNowKeeps(s);
      CloseDrainingKeeps(s, clock);
    }
  }

  lemma {:induction false} ClearKeeps(s: State, clock: Clock)
    requires Inv(s)
    ensures Inv(Clear(s, clock))
  {
    if s.jobs.pending != [] {
      RejectAllKeeps(s.jobs, Cleared);
      ArmEstablishes(s.(jobs := RejectAll(s.jobs, Cleared)), clock);
    }
  }

  lemma {:induction false} AbortKeeps(s: State, q: nat, clock: Clock)
    requires Inv(s)
    ensures Inv(AbortFires(s, q, clock))
  {
    if q in s.jobs.listening {
      AbortPendingKeeps(s.jobs, q);
      ArmEstablishes(s.(jobs := AbortPending(s.jobs, q)), clock);
    }
  }

  lemma {:induction false} HandlerEndsKeeps(s: State, q: nat, ok: bool)
    requires Inv(s)
    ensures Inv(HandlerEnds(s, q, ok))
  {
    if q in s.jobs.executing {
      EndJobKeeps(s.jobs, q, ok);
      EndJobKeepsSlot(s.jobs, q, ok);
    }
  }

  lemma {:induction false} SlotFreedKeeps(s: State, q: nat, clock: Clock)
    requires Inv(s)
    ensures Inv(SlotFreed(s, q, clock))
  {
    if q in s.jobs.unwinding {
      FreeSlotKeeps(s.jobs, q);
      ArmEstablishes(s.(jobs := FreeSlot(s.jobs, q)), clock);
    }
  }

  lemma PauseKeeps(s: State)
    requires Inv(s)
    ensures Inv(Pause(s))
  {
  }

  lemma {:induction false} ResumeKeeps(s: State, clock: Clock)
    requires Inv(s)
    ensures Inv(Resume(s, clock))
  {
    if s.paused && !s.closed {
      ArmEstablishes(s.(paused := false), clock);
    }
  }

  lemma {:induction false} DrainKeepsInv(s: State, clock: Clock)
    requires Inv(s)
    ensures Inv(Drain(s, clock))
  {
    DrainKeeps(s, clock);
  }

  lemma {:induction false} TimerKeeps(s: State, clock: Clock)
    requires Inv(s)
    ensures Inv(TimerFires(s, clock))
  {
    if s.timer {
      PumpLoopKeeps(s.(timer := false), clock);
    }
  }

  lemma {:induction false} ImmediateKeeps(s: State, clock: Clock)
    requires Inv(s)
    ensures Inv(ImmediateFires(s, clock))
  {
    if s.immediate {
      PumpLoopKeeps(s.(immediate := false), clock);
    }
  }

  lemma FinishCloseKeeps(s: State)
    requires Inv(s)
    ensures Inv(FinishClose(s))
  {
  }

  lemma {:induction false} StepKeeps(s: State, e: Event, clock: Clock)
    requires Inv(s)
    ensures Inv(Step(s, e, clock))
  {
    hide Inv, QueueModel.Enqueue, Pause, Resume, Drain, Close, Clear, AbortFires, TimerFires, ImmediateFires, HandlerEnds,
         SlotFreed, FinishClose;
    match e
    case EnqueueE(runAt, priority, signal) => EnqueueKeeps(s, runAt, priority, signal, clock);
    case PauseE => PauseKeeps(s);
    case ResumeE => ResumeKeeps(s, clock);
    case DrainE => DrainKeepsInv(s, clock);
    case CloseE(drain) => CloseKeeps(s, drain, clock);
    case ClearE => ClearKeeps(s, clock);
    case AbortE(q) => AbortKeeps(s, q, clock);
    case TimerE => TimerKeeps(s, clock);
    case ImmediateE => ImmediateKeeps(s, clock);
    case HandlerEndsE(q, ok) => HandlerEndsKeeps(s, q, ok);
    case SlotFreedE(q) => SlotFreedKeeps(s, q, clock);
    case FinishCloseE => FinishCloseKeeps(s);
  }

  lemma {:induction false} RunKeeps(s: State, events: seq<Event>, clock: Clock)
    requires Inv(s)
    ensures Inv(Run(s, events, clock))
  {
    hide Inv, Step;
    if events != [] {
      RunKeeps(s, events[..|events| - 1], clock);
      StepKeeps(Run(s, events[..|events| - 1], clock), events[|events| - 1], clock);
    }
  }

  // ----- Over whole runs -----

  ghost function Reached(concurrency: nat, maxPending: Option<nat>, events: seq<Event>, clock: Clock): State {
    Run(Initial(concurrency, maxPending), events, clock)
  }

  lemma {:induction false} ReachedInv(concurrency: nat, maxPending: Option<nat>, events: seq<Event>, clock: Clock)
    requires 1 <= concurrency
    ensures Inv(Reached(concurrency, maxPending, events, clock))
  {
    hide Inv;
    InitialInv(concurrency, maxPending);
    RunKeeps(Initial(concurrency, maxPending), events, clock);
  }

  lemma {:induction false} RunKeepsLimits(s: State, events: seq<Event>, clock: Clock)
    ensures Run(s, events, clock).concurrency == s.concurrency
    ensures Run(s, events, clock).maxPending == s.maxPending
  {
    if events != [] {
      RunKeepsLimits(s, events[..|events| - 1], clock);
      StepKeepsLimits(Run(s, events[..|events| - 1], clock), events[|events| - 1], clock);
    }
  }

  lemma {:induction false} StepKeepsLimits(s: State, e: Event, clock: Clock)
    ensures Step(s, e, clock).concurrency == s.concurrency
    ensures Step(s, e, clock).maxPending == s.maxPending
  {
    StepFrame(s, e, clock);
  }

  // Both states agree on all that arming leaves alone, and drain() callers
  // only leave when the queue is idle.
  ghost predicate ArmFrame(s: State, t: State) {
    && t.concurrency == s.concurrency && t.maxPending == s.maxPending && t.jobs == s.jobs
    && t.closed == s.closed && t.closing == s.closing && t.paused == s.paused
    && t.nextWaiter == s.nextWaiter
    && (t.waiters == s.waiters || (t.waiters == [] && Idle(t.jobs)))
  }

  lemma ArmKeepsFrame(s: State, clock: Clock)
    ensures ArmFrame(s, Arm(s, clock))
  {
  }

  // What every step does to the limits, the accepted jobs, the outcomes, the
  // closing flags and the waiting drain() callers.
  ghost predicate Frame(s: State, e: Event, t: State) {
    && t.concurrency == s.concurrency && t.maxPending == s.maxPending
    && s.jobs.accepted <= t.jobs.accepted
    && (s.closing || s.closed ==> (t.closing || t.closed) && t.jobs.accepted == s.jobs.accepted)
    && (s.closed ==> t.closed)
    && (t.closed && !s.closed ==> (e == CloseE(false) && s.closeWait == NotClosing) || s.closeWait.DrainDone?)
    && (t.closed && !s.closed && s.closeWait.DrainDone? ==> t.jobs == s.jobs)
    && (forall w :: w in s.waiters && w !in t.waiters ==>
          Idle(t.jobs) || (e == CloseE(false) && s.closeWait == NotClosing && !s.closed))
    && WaiterFrame(s, t)
  }

  // Waiters join under fresh numbers, and none is left behind by closing.
  ghost predicate WaiterFrame(s: State, t: State) {
    && s.nextWaiter <= t.nextWaiter
    && (forall w :: w in t.waiters ==> w in s.waiters || w >= s.nextWaiter)
    && (t.closed && !s.closed ==> t.waiters == [] || (s.closeWait.DrainDone? && t.waiters == s.waiters))
  }

  lemma {:induction false} StepFrame(s: State, e: Event, clock: Clock)
    ensures Frame(s, e, Step(s, e, clock))
  {
    hide Frame, Drain, Close, Enqueue, Pause, Resume, Clear, AbortFires, TimerFires, ImmediateFires, HandlerEnds,
         SlotFreed, FinishClose;
    match e
    case EnqueueE(runAt, priority, signal) => EnqueueFrame(s, runAt, priority, signal, clock);
    case PauseE => QuietFrame(s, e, clock);
    case ResumeE => ArmingFrame(s, e, clock);
    case DrainE => DrainFrame(s, clock);
    case CloseE(drain) => CloseFrame(s, drain, clock);
    case ClearE => ArmingFrame(s, e, clock);
    case AbortE(q) => ArmingFrame(s, e, clock);
    case TimerE => PumpFrame(s, e, clock);
    case ImmediateE => PumpFrame(s, e, clock);
    case HandlerEndsE(q, ok) => QuietFrame(s, e, clock);
    case SlotFreedE(q) => ArmingFrame(s, e, clock);
    case FinishCloseE => QuietFrame(s, e, clock);
  }

  lemma QuietFrame(s: State, e: Event, clock: Clock)
    requires e.PauseE? || e.HandlerEndsE? || e.FinishCloseE?
    ensures Frame(s, e, Step(s, e, clock))
  {
  }

  lemma {:induction false} ArmedFrame(s: State, t: State, e: Event, clock: Clock)
    requires t == s.(jobs := t.jobs, paused := t.paused) && t.jobs.accepted == s.jobs.accepted
    ensures Frame(s, e, Arm(t, clock))
  {
    hide Arm;
    ArmKeepsFrame(t, clock);
  }

  lemma SameFrame(s: State, e: Event)
    ensures Frame(s, e, s)
  {
  }

  lemma {:induction false} ArmingFrame(s: State, e: Event, clock: Clock)
    requires e.ResumeE? || e.ClearE? || e.AbortE? || e.SlotFreedE?
    ensures Frame(s, e, Step(s, e, clock))
  {
    hide Arm, Frame, SequenceList, Without, Sequences;
    SameFrame(s, e);
    match e
    case ResumeE => ArmedFrame(s, s.(paused := false), e, clock);
    case ClearE => ArmedFrame(s, s.(jobs := RejectAll(s.jobs, Cleared)), e, clock);
    case AbortE(q) =>
      ArmedFrame(s, s.(jobs := AbortPending(s.jobs, q)), e, clock);
      UnlistenedFrame(s, e, q);
    case SlotFreedE(q) => ArmedFrame(s, s.(jobs := FreeSlot(s.jobs, q)), e, clock);
  }

  lemma UnlistenedFrame(s: State, e: Event, q: nat)
    ensures Frame(s, e, s.(jobs := s.jobs.(listening := s.jobs.listening - {q})))
  {
  }

  lemma {:induction false} PumpFrame(s: State, e: Event, clock: Clock)
    requires e.TimerE? || e.ImmediateE?
    ensures Frame(s, e, Step(s, e, clock))
  {
    hide PumpLoop;
    PumpLoopFrame(s.(timer := false), clock);
    PumpLoopFrame(s.(immediate := false), clock);
  }

  lemma {:induction false} EnqueueFrame(
    s: State, runAt: Option<Number>, priority: Option<Number>, signal: Signal, clock: Clock
  )
    ensures Frame(s, EnqueueE(runAt, priority, signal), Enqueue(s, runAt, priority, signal, clock))
  {
    hide Arm, AcceptJob, RefuseAborted, Frame, Normalized;
    var t, e := s.(samples := s.samples + 1), EnqueueE(runAt, priority, signal);
    var r := EnqueueResultOf(s, runAt, priority);
    SameFrame(s, e);
    if r.Promise? {
      var job := Job(r.sequence, Normalized(runAt).value, Normalized(priority).value, clock(s.samples), signal.LiveSignal?);
      AcceptFrame(s, t.(jobs := AcceptJob(s.jobs, job)), job, e, clock);
      NumberedFrame(s, t.(jobs := RefuseAborted(s.jobs, r.sequence)), r.sequence, e);
    } else if r.TypeError? {
      NumberedFrame(s, t.(jobs := s.jobs.(sequence := s.jobs.sequence + 1)), s.jobs.sequence + 1, e);
    }
  }

  lemma {:induction false} AcceptFrame(s: State, t: State, job: Job, e: Event, clock: Clock)
    requires t == s.(jobs := AcceptJob(s.jobs, job), samples := t.samples) && !s.closing && !s.closed
    ensures Frame(s, e, Arm(t, clock))
  {
    hide Arm, Insert;
    ArmKeepsFrame(t, clock);
  }

  lemma NumberedFrame(s: State, t: State, q: nat, e: Event)
    requires t.jobs == RefuseAborted(s.jobs, q) || t.jobs == s.jobs.(sequence := q)
    requires t == s.(jobs := t.jobs, samples := t.samples) && !s.closing && !s.closed
    ensures Frame(s, e, t)
  {
  }

  lemma {:induction false} DrainFrame(s: State, clock: Clock)
    ensures ArmFrame(s, Drain(s, clock).(waiters := s.waiters, nextWaiter := s.nextWaiter))
    ensures Frame(s, DrainE, Drain(s, clock))
  {
    hide Arm;
    ArmKeepsFrame(s.(waiters := s.waiters + [s.nextWaiter], nextWaiter := s.nextWaiter + 1), clock);
  }

  lemma {:induction false} CloseFrame(s: State, drain: bool, clock: Clock)
    ensures Frame(s, CloseE(drain), Close(s, drain, clock))
  {
    hide Arm, SequenceList, Sequences;
    if drain {
      var begun := s.(closing := true, paused := false);
      ArmKeepsFrame(begun, clock);
      DrainFrame(Arm(begun, clock), clock);
    }
  }

  // What a pump leaves alone.
  lemma {:induction false} PumpLoopFrame(s: State, clock: Clock)
    ensures var t := PumpLoop(s, clock);
            && t.concurrency == s.concurrency && t.maxPending == s.maxPending
            && t.closed == s.closed && t.closing == s.closing && t.paused == s.paused
            && t.jobs.accepted == s.jobs.accepted && t.jobs.outcome == s.jobs.outcome && t.nextWaiter == s.nextWaiter
            && (t.waiters == s.waiters || (t.waiters == [] && Idle(t.jobs)))
    decreases |s.jobs.pending|
  {
    if Running(s.jobs) < s.concurrency && s.jobs.pending != [] && s.jobs.pending[0].runAt <= clock(s.samples) {
      PumpLoopFrame(StartHead(s), clock);
    }
  }

  // In every reachable state each accepted job is in exactly one place, its
  // promise is settled at most once, and the limits are kept.
  lemma {:induction false} JobsAreNeverLostOrDoubled(
    concurrency: nat, maxPending: Option<nat>, events: seq<Event>, clock: Clock, q: nat
  )
    requires 1 <= concurrency
    ensures var s := Reached(concurrency, maxPending, events, clock);
            && (q in s.jobs.accepted <==>
                q in Sequences(s.jobs.pending) || q in s.jobs.executing || q in s.jobs.outcome)
            && !(q in Sequences(s.jobs.pending) && q in s.jobs.executing)
            && !(q in Sequences(s.jobs.pending) && q in s.jobs.outcome)
            && !(q in s.jobs.executing && q in s.jobs.outcome)
            && s.jobs.settlements[q] == (if q in s.jobs.outcome then 1 else 0)
            && Running(s.jobs) <= concurrency
            && (maxPending.Some? ==> |s.jobs.pending| <= maxPending.value)
  {
    ReachedInv(concurrency, maxPending, events, clock);
    RunKeepsLimits(Initial(concurrency, maxPending), events, clock);
  }

  // No lost wakeup: exactly one of timer and immediate is armed when there is
  // work a free slot could take, and neither is armed otherwise.
  lemma {:induction false} NoLostWakeup(concurrency: nat, maxPending: Option<nat>, events: seq<Event>, clock: Clock)
    requires 1 <= concurrency
    ensures var s := Reached(concurrency, maxPending, events, clock);
            && (WorkWaits(s) ==> s.timer != s.immediate)
            && (!WorkWaits(s) ==> !s.timer && !s.immediate)
  {
    ReachedInv(concurrency, maxPending, events, clock);
  }

  // Jobs of equal due time and priority start in the order they were enqueued,
  // and none of them starts while an earlier one is still pending.
  lemma {:induction false} FirstInFirstOut(
    concurrency: nat, maxPending: Option<nat>, events: seq<Event>, clock: Clock, k: nat
  )
    requires 1 <= concurrency
    requires k < |Reached(concurrency, maxPending, events, clock).jobs.started|
    ensures var j := Reached(concurrency, maxPending, events, clock).jobs;
            var job := j.started[k];
            && (forall i :: 0 <= i < k && j.started[i].runAt == job.runAt && j.started[i].priority == job.priority ==>
                  j.started[i].sequence < job.sequence)
            && (forall p :: p in j.pending && p.runAt == job.runAt && p.priority == job.priority ==>
                  job.sequence < p.sequence)
  {
    ReachedInv(concurrency, maxPending, events, clock);
  }

  // Where a pump stops: all slots are taken, or nothing is left, or no pending
  // job was due at the sample its loop took last (arming takes one more).
  lemma {:induction false} PumpStops(s: State, clock: Clock)
    requires JobsInv(s.jobs) && !s.closed && !s.paused && Running(s.jobs) <= s.concurrency
    ensures var t := PumpLoop(s, clock);
            || Running(t.jobs) == t.concurrency
            || t.jobs.pending == []
            || (t.samples >= 2 && forall p :: p in t.jobs.pending ==> p.runAt > clock(t.samples - 2))
    decreases |s.jobs.pending|
  {
    hide JobsInv, PumpLoop, PendingSorted;
    PendingStaysSorted(s.jobs);
    if Running(s.jobs) < s.concurrency && s.jobs.pending != [] {
      PumpLoopStep(s, clock);
      if s.jobs.pending[0].runAt > clock(s.samples) {
        HeadIsEarliest(s.jobs);
      } else {
        StartFirstKeeps(s.jobs);
        PumpStops(StartHead(s), clock);
      }
    } else {
      PumpLoopEnd(s, clock);
    }
  }

  lemma {:induction false} HeadIsEarliest(j: Jobs)
    requires PendingSorted(j) && j.pending != []
    ensures forall p :: p in j.pending ==> j.pending[0].runAt <= p.runAt
  {
    forall p | p in j.pending
      ensures j.pending[0].runAt <= p.runAt
    {
      assert p == j.pending[0] || Before(j.pending[0], p);
    }
  }

  lemma PendingStaysSorted(j: Jobs)
    requires JobsInv(j)
    ensures PendingSorted(j)
  {
  }

  // ----- Settled means settled -----

  // Nothing that was settled is settled differently.
  ghost predicate OutcomesKept(before: Jobs, after: Jobs) {
    forall q :: q in before.outcome ==> q in after.outcome && after.outcome[q] == before.outcome[q]
  }

  lemma {:induction false} RejectAllKeepsOutcomes(j: Jobs, reason: Reason)
    requires Placed(j)
    ensures OutcomesKept(j, RejectAll(j, reason))
  {
    hide SequenceList, Sequences;
  }

  lemma ArmKeepsJobs(s: State, clock: Clock)
    ensures Arm(s, clock).jobs == s.jobs
  {
  }

  lemma {:induction false} DrainKeepsJobs(s: State, clock: Clock)
    ensures Drain(s, clock).jobs == s.jobs
  {
    hide Arm;
    ArmKeepsJobs(s.(waiters := s.waiters + [s.nextWaiter], nextWaiter := s.nextWaiter + 1), clock);
  }

  lemma {:induction false} CloseKeepsOutcomes(s: State, drain: bool, clock: Clock)
    requires Placed(s.jobs)
    ensures OutcomesKept(s.jobs, Close(s, drain, clock).jobs)
  {
    hide Arm, Drain, RejectAll, Placed, OutcomesKept;
    var begun := s.(closing := true, paused := false);
    ArmKeepsJobs(begun, clock);
    DrainKeepsJobs(Arm(begun, clock), clock);
    RejectAllKeepsOutcomes(s.jobs, QueueClosed);
    SameOutcomes(s.jobs);
  }

  lemma SameOutcomes(j: Jobs)
    ensures OutcomesKept(j, j)
  {
  }

  lemma {:induction false} ClearKeepsOutcomes(s: State, clock: Clock)
    requires Placed(s.jobs)
    ensures OutcomesKept(s.jobs, Clear(s, clock).jobs)
  {
    hide Arm, RejectAll, Placed, OutcomesKept;
    ArmKeepsJobs(s.(jobs := RejectAll(s.jobs, Cleared)), clock);
    RejectAllKeepsOutcomes(s.jobs, Cleared);
    SameOutcomes(s.jobs);
  }

  lemma {:induction false} AbortKeepsOutcomes(s: State, q: nat, clock: Clock)
    requires Placed(s.jobs)
    ensures OutcomesKept(s.jobs, AbortFires(s, q, clock).jobs)
  {
    hide Arm, Without, Sequences;
    ArmKeepsJobs(s.(jobs := AbortPending(s.jobs, q)), clock);
  }

  lemma {:induction false} PumpKeepsOutcomes(s: State, clock: Clock)
    ensures Pump(s, clock).jobs.outcome == s.jobs.outcome
  {
    hide PumpLoop;
    PumpLoopFrame(s, clock);
  }

  lemma {:induction false} SlotFreedKeepsOutcomes(s: State, q: nat, clock: Clock)
    ensures SlotFreed(s, q, clock).jobs.outcome == s.jobs.outcome
  {
    hide Arm;
    ArmKeepsJobs(s.(jobs := FreeSlot(s.jobs, q)), clock);
  }

  lemma {:induction false} HandlerEndsKeepsOutcomes(s: State, q: nat, ok: bool)
    requires Placed(s.jobs)
    ensures OutcomesKept(s.jobs, HandlerEnds(s, q, ok).jobs)
  {
    hide Sequences;
  }

  lemma {:induction false} ResumeKeepsJobs(s: State, clock: Clock)
    ensures Resume(s, clock).jobs == s.jobs
  {
    hide Arm;
    ArmKeepsJobs(s.(paused := false), clock);
  }

  lemma {:induction false} StepKeepsOutcomes(s: State, e: Event, clock: Clock)
    requires Placed(s.jobs)
    ensures OutcomesKept(s.jobs, Step(s, e, clock).jobs)
  {
    hide Placed, Enqueue, Resume, Drain, Close, Clear, AbortFires, Pump, HandlerEnds, SlotFreed;
    match e
    case EnqueueE(runAt, priority, signal) => EnqueueKeepsOutcomes(s, runAt, priority, signal, clock);
    case PauseE =>
    case ResumeE => ResumeKeepsJobs(s, clock);
    case DrainE => DrainKeepsJobs(s, clock);
    case CloseE(drain) => CloseKeepsOutcomes(s, drain, clock);
    case ClearE => ClearKeepsOutcomes(s, clock);
    case AbortE(q) => AbortKeepsOutcomes(s, q, clock);
    case TimerE => PumpKeepsOutcomes(s.(timer := false), clock);
    case ImmediateE => PumpKeepsOutcomes(s.(immediate := false), clock);
    case HandlerEndsE(q, ok) => HandlerEndsKeepsOutcomes(s, q, ok);
    case SlotFreedE(q) => SlotFreedKeepsOutcomes(s, q, clock);
    case FinishCloseE =>
  }

  lemma {:induction false} EnqueueKeepsOutcomes(
    s: State, runAt: Option<Number>, priority: Option<Number>, signal: Signal, clock: Clock
  )
    requires Placed(s.jobs)
    ensures OutcomesKept(s.jobs, Enqueue(s, runAt, priority, signal, clock).jobs)
  {
    hide Arm, AcceptJob, Sequences, RefuseAborted, OutcomesKept, Placed, Normalized;
    var t := s.(samples := s.samples + 1);
    var r := EnqueueResultOf(s, runAt, priority);
    SameOutcomes(s.jobs);
    if r.Promise? {
      var job := Job(r.sequence, Normalized(runAt).value, Normalized(priority).value, clock(s.samples), signal.LiveSignal?);
      ArmKeepsJobs(t.(jobs := AcceptJob(s.jobs, job)), clock);
      AcceptKeepsOutcomes(s.jobs, job);
      RefuseKeepsOutcomes(s.jobs);
    } else {
      NumberKeepsOutcomes(s.jobs);
    }
  }

  lemma AcceptKeepsOutcomes(j: Jobs, job: Job)
    ensures OutcomesKept(j, AcceptJob(j, job))
  {
    hide Insert;
  }

  lemma RefuseKeepsOutcomes(j: Jobs)
    requires Placed(j)
    ensures OutcomesKept(j, RefuseAborted(j, j.sequence + 1))
  {
  }

  lemma NumberKeepsOutcomes(j: Jobs)
    ensures OutcomesKept(j, j.(sequence := j.sequence + 1))
  {
  }

  // An outcome is never changed by anything that happens later.
  lemma {:induction false} OutcomesAreFinal(s: State, events: seq<Event>, clock: Clock)
    requires Inv(s)
    ensures forall q :: q in s.jobs.outcome ==>
              q in Run(s, events, clock).jobs.outcome && Run(s, events, clock).jobs.outcome[q] == s.jobs.outcome[q]
  {
    hide Inv;
    if events != [] {
      var before := Run(s, events[..|events| - 1], clock);
      OutcomesAreFinal(s, events[..|events| - 1], clock);
      RunKeeps(s, events[..|events| - 1], clock);
      InvPlaces(before);
      StepKeepsOutcomes(before, events[|events| - 1], clock);
    }
  }

  lemma InvPlaces(s: State)
    requires Inv(s)
    ensures Placed(s.jobs) && CloseConsistent(s)
  {
  }

  // Abort, clear and close only ever reject jobs that never start; a started
  // job is settled by its handler alone.
  lemma {:induction false} StartedJobsAreSettledByTheirHandler(
    concurrency: nat, maxPending: Option<nat>, events: seq<Event>, clock: Clock, q: nat
  )
    requires 1 <= concurrency
    requires q in Reached(concurrency, maxPending, events, clock).jobs.outcome
    ensures var j := Reached(concurrency, maxPending, events, clock).jobs;
            ByHandler(j.outcome[q]) <==> exists k :: 0 <= k < |j.started| && j.started[k].sequence == q
  {
    ReachedInv(concurrency, maxPending, events, clock);
    var j := Reached(concurrency, maxPending, events, clock).jobs;
    assert q in Sequences(j.started) <==> exists k :: 0 <= k < |j.started| && j.started[k].sequence == q;
  }

  // ----- Closing -----

  // Once closing or closed the queue stays so and accepts nothing more.
  lemma {:induction false} ClosingAcceptsNothing(s: State, events: seq<Event>, clock: Clock)
    requires s.closing || s.closed
    ensures var t := Run(s, events, clock); (t.closing || t.closed) && t.jobs.accepted == s.jobs.accepted
    ensures s.closed ==> Run(s, events, clock).closed
  {
    if events != [] {
      ClosingAcceptsNothing(s, events[..|events| - 1], clock);
      StepFrame(Run(s, events[..|events| - 1], clock), events[|events| - 1], clock);
    }
  }

  // Only an immediate close that no draining close preceded closes a queue
  // that still has pending or running jobs.
  lemma {:induction false} DrainingCloseWaitsForIdle(s: State, e: Event, clock: Clock)
    requires Inv(s) && !s.closed && Step(s, e, clock).closed
    ensures Idle(Step(s, e, clock).jobs) || (e == CloseE(false) && !s.closing)
  {
    hide Inv, Step;
    InvPlaces(s);
    InvCloses(s);
    StepFrame(s, e, clock);
  }

  lemma InvCloses(s: State)
    requires Inv(s)
    ensures s.closing <==> s.closeWait != NotClosing
  {
  }
}
