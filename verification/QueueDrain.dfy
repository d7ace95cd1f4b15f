/**
 How long callers of drain() are kept waiting.
 */
module QueueDrain {
  import opened Options
  import opened QueueModel
  import opened QueueProofs

  // No drain() caller is let go too early: only when the queue is idle, or by an
  // immediate close that no draining close preceded.
  lemma {:induction false} WaitersLeaveOnlyWhenIdle(s: State, e: Event, clock: Clock, w: nat)
    requires Inv(s) && w in s.waiters && w !in Step(s, e, clock).waiters
    ensures Idle(Step(s, e, clock).jobs) || (e == CloseE(false) && !s.closing && !s.closed)
  {
    hide Inv, Step;
    InvCloses(s);
    StepFrame(s, e, clock);
  }

  // A caller that has its number keeps waiting only while the queue is open.
  ghost predicate OpenWhileWaiting(s: State, w: nat) {
    w < s.nextWaiter && (w in s.waiters ==> !s.closed)
  }

  lemma {:induction false} StepIsOpenWhileWaiting(s: State, e: Event, clock: Clock, w: nat)
    requires Inv(s) && OpenWhileWaiting(s, w)
    ensures OpenWhileWaiting(Step(s, e, clock), w)
  {
    hide Step, Inv;
    InvPlaces(s);
    StepFrame(s, e, clock);
  }

  lemma {:induction false} RunIsOpenWhileWaiting(s: State, events: seq<Event>, clock: Clock, w: nat)
    requires Inv(s) && OpenWhileWaiting(s, w)
    ensures OpenWhileWaiting(Run(s, events, clock), w)
  {
    hide Inv, OpenWhileWaiting, Step;
    if events != [] {
      RunIsOpenWhileWaiting(s, events[..|events| - 1], clock, w);
      RunKeeps(s, events[..|events| - 1], clock);
      StepIsOpenWhileWaiting(Run(s, events[..|events| - 1], clock), events[|events| - 1], clock, w);
    }
  }

  // Whoever calls drain() on an open queue has returned as soon as the queue is idle
  // and not paused, and in any case when it is closed.
  lemma {:induction false} OpenQueueReleasesWaiters(s: State, events: seq<Event>, clock: Clock)
    requires Inv(s) && !s.closed && !Idle(s.jobs)
    ensures var t := Run(Drain(s, clock), events, clock);
            s.nextWaiter in t.waiters ==> !t.closed && (t.paused || !Idle(t.jobs))
  {
    hide Inv;
    var begun := Drain(s, clock);
    DrainKeepsInv(s, clock);
    DrainTakesNumber(s, clock);
    RunIsOpenWhileWaiting(begun, events, clock, s.nextWaiter);
    RunKeeps(begun, events, clock);
    InvDrains(Run(begun, events, clock));
  }

  lemma DrainTakesNumber(s: State, clock: Clock)
    requires !Idle(s.jobs)
    ensures var t := Drain(s, clock);
            s.nextWaiter in t.waiters && t.nextWaiter == s.nextWaiter + 1 && t.closed == s.closed && t.jobs == s.jobs
  {
  }

  lemma InvDrains(s: State)
    requires Inv(s)
    ensures DrainPrompt(s)
  {
  }

  // A caller that starts to wait on a closed queue is never let go: drain()
  // only returns on a closed queue if the queue is already idle.
  lemma {:induction false} ClosedQueueKeepsWaiters(s: State, events: seq<Event>, clock: Clock, w: nat)
    requires Inv(s) && s.closed && w in s.waiters
    ensures Run(s, events, clock).closed && w in Run(s, events, clock).waiters
  {
    hide Inv;
    if events != [] {
      var before, e := Run(s, events[..|events| - 1], clock), events[|events| - 1];
      ClosedQueueKeepsWaiters(s, events[..|events| - 1], clock, w);
      RunKeeps(s, events[..|events| - 1], clock);
      InvPlaces(before);
      ClosedStepKeepsWaiters(before, e, clock, w);
    }
  }

  lemma ClosedStepKeepsWaiters(s: State, e: Event, clock: Clock, w: nat)
    requires CloseConsistent(s) && s.closed && w in s.waiters
    ensures Step(s, e, clock).closed && w in Step(s, e, clock).waiters
  {
  }

  // Such a caller exists: the job it waits for runs on after an immediate
  // close, and finishing it does not wake the caller. Any clock past the
  // start of the epoch will do.
  const LATE_DRAIN := [EnqueueE(None, None, NoSignal), ImmediateE, CloseE(false), DrainE]

  lemma {:induction false} LateDrainHangs(events: seq<Event>, clock: Clock)
    requires forall n :: clock(n) >= 0.0
    ensures var s := Run(Reached(1, None, LATE_DRAIN, clock), events, clock);
            s.closed && 0 in s.waiters
  {
    LateDrainRun(clock);
    ReachedInv(1, None, LATE_DRAIN, clock);
    ClosedQueueKeepsWaiters(Reached(1, None, LATE_DRAIN, clock), events, clock, 0);
  }

  lemma {:induction false} LateDrainRun(clock: Clock)
    requires forall n :: clock(n) >= 0.0
    ensures Reached(1, None, LATE_DRAIN, clock).closed && Reached(1, None, LATE_DRAIN, clock).waiters == [0]
  {
    var job := Job(1, 0.0, 0.0, clock(0), false);
    var s0 := Initial(1, None);
    var s1 := s0.(samples := 2, immediate := true,
                  jobs := s0.jobs.(pending := [job], sequence := 1, accepted := {1}));
    assert Insert([], job) == [job];
    assert Step(s0, LATE_DRAIN[0], clock) == s1;
    var s2 := StartHead(s1.(immediate := false));
    StartsDueJob(s1, job, clock);
    assert Step(s1, LATE_DRAIN[1], clock) == s2;
    var s3 := CloseNow(s2);
    var s4 := s3.(waiters := [0], nextWaiter := 1);
    assert Running(s3.jobs) == 1;
    assert Step(s3, LATE_DRAIN[3], clock) == s4;
    RunStep(s0, LATE_DRAIN[..1], clock);
    RunStep(s0, LATE_DRAIN[..2], clock);
    RunStep(s0, LATE_DRAIN[..3], clock);
    RunStep(s0, LATE_DRAIN, clock);
  }

  lemma RunStep(s: State, events: seq<Event>, clock: Clock)
    requires events != []
    ensures Run(s, events, clock) == Step(Run(s, events[..|events| - 1], clock), events[|events| - 1], clock)
  {
  }

  lemma {:induction false} StartsDueJob(s: State, job: Job, clock: Clock)
    requires s.immediate && s.jobs.pending == [job] && s.jobs.executing == {} && s.jobs.unwinding == {}
    requires s.concurrency == 1 && !s.closed && !s.paused && job.runAt <= clock(s.samples)
    ensures Step(s, ImmediateE, clock) == StartHead(s.(immediate := false))
  {
    var t := s.(immediate := false);
    assert PumpLoop(t, clock) == PumpLoop(StartHead(t), clock);
    assert Running(StartHead(t).jobs) == 1;
  }

  // ----- When a caller is kept for ever -----

  lemma {:induction false} RunsJoin(s: State, first: seq<Event>, second: seq<Event>, clock: Clock)
    ensures Run(s, first + second, clock) == Run(Run(s, first, clock), second, clock)
  {
    hide Step;
    if second == [] {
      assert first + second == first;
    } else {
      var front, last := second[..|second| - 1], second[|second| - 1];
      RunsJoin(s, first, front, clock);
      assert (first + second)[..|first + second| - 1] == first + front;
      assert (first + second)[|first + second| - 1] == last;
    }
  }

  // The handlers of a closed queue can all come to an end.
  lemma {:induction false} ClosedQueueCanIdle(s: State, clock: Clock) returns (events: seq<Event>)
    requires Inv(s) && s.closed
    ensures Run(s, events, clock).closed && Idle(Run(s, events, clock).jobs)
    decreases 2 * |s.jobs.executing| + |s.jobs.unwinding|
  {
    hide Inv, Step;
    InvPlaces(s);
    if Idle(s.jobs) {
      events := [];
    } else {
      var e := NextEnd(s, clock);
      StepKeeps(s, e, clock);
      var more := ClosedQueueCanIdle(Step(s, e, clock), clock);
      events := [e] + more;
      RunsJoin(s, [e], more, clock);
      assert Run(s, [e], clock) == Step(Run(s, [], clock), e, clock) by { assert [e][..0] == []; }
    }
  }

  lemma {:induction false} NextEnd(s: State, clock: Clock) returns (e: Event)
    requires Placed(s.jobs) && CloseConsistent(s) && s.closed && !Idle(s.jobs)
    ensures var t := Step(s, e, clock);
            t.closed && 2 * |t.jobs.executing| + |t.jobs.unwinding| < 2 * |s.jobs.executing| + |s.jobs.unwinding|
  {
    hide Placed, CloseConsistent, EndJob, FreeSlot;
    SomeRuns(s);
    if q :| q in s.jobs.executing {
      e := HandlerEndsE(q, true);
      EndsOne(s, q, clock);
    } else {
      var q :| q in s.jobs.unwinding;
      e := SlotFreedE(q);
      FreesOne(s, q, clock);
    }
  }

  lemma SomeRuns(s: State)
    requires CloseConsistent(s) && s.closed && !Idle(s.jobs)
    ensures s.jobs.executing != {} || s.jobs.unwinding != {}
  {
  }

  lemma EndsOne(s: State, q: nat, clock: Clock)
    requires Placed(s.jobs) && q in s.jobs.executing
    ensures var t := Step(s, HandlerEndsE(q, true), clock);
            && t.closed == s.closed && |t.jobs.executing| == |s.jobs.executing| - 1
            && |t.jobs.unwinding| == |s.jobs.unwinding| + 1
  {
    assert q !in s.jobs.unwinding;
  }

  lemma FreesOne(s: State, q: nat, clock: Clock)
    requires s.closed && q in s.jobs.unwinding
    ensures var t := Step(s, SlotFreedE(q), clock);
            t.closed && t.jobs.executing == s.jobs.executing && |t.jobs.unwinding| == |s.jobs.unwinding| - 1
  {
  }

  // The queue is idle and not merely paused, and still the caller waits.
  predicate Stranded(s: State, w: nat) {
    w in s.waiters && Idle(s.jobs) && (s.closed || !s.paused)
  }

  // A caller of drain() on a busy queue can be stranded exactly when the queue was
  // already closed, and then it never returns, whatever happens.
  lemma {:induction false} StrandedExactly(s: State, clock: Clock)
    requires Inv(s) && !Idle(s.jobs)
    ensures (exists events :: Stranded(Run(Drain(s, clock), events, clock), s.nextWaiter)) <==> s.closed
    ensures s.closed ==> forall events :: s.nextWaiter in Run(Drain(s, clock), events, clock).waiters
  {
    hide Inv, Drain, Idle;
    var begun := Drain(s, clock);
    DrainKeepsInv(s, clock);
    DrainTakesNumber(s, clock);
    if s.closed {
      var events := ClosedQueueCanIdle(begun, clock);
      forall events: seq<Event>
        ensures s.nextWaiter in Run(begun, events, clock).waiters
      {
        ClosedQueueKeepsWaiters(begun, events, clock, s.nextWaiter);
      }
      assert Stranded(Run(begun, events, clock), s.nextWaiter);
    } else {
      forall events: seq<Event>
        ensures !Stranded(Run(begun, events, clock), s.nextWaiter)
      {
        OpenQueueReleasesWaiters(s, events, clock);
      }
    }
  }
}
