/**
 What the queue does with the arguments of enqueue(): which calls are accepted, what
 their jobs carry, which of them start and when, and how each one is settled.
 */
module QueueHistory {
  import opened Options
  import opened QueueModel
  import opened QueueProofs

  // ----- What was asked -----

  // The number a caller asked for, 0 where it gave none.
  predicate IsAsked(asked: Option<Number>, value: real) {
    match asked
    case None => value == 0.0
    case Some(Finite(v)) => value == v
    case Some(NotFinite) => false
  }

  predicate IsFinite(asked: Option<Number>) {
    asked.Some? ==> asked.value.Finite?
  }

  // The queue is open and has room, and the numbers are numbers.
  predicate Accepts(s: State, e: Event) {
    && e.EnqueueE? && !s.closed && !s.closing
    && (s.maxPending.Some? ==> |s.jobs.pending| < s.maxPending.value)
    && IsFinite(e.runAt) && IsFinite(e.priority)
  }

  // The job of an accepted call whose signal has not aborted.
  ghost predicate IsJobOf(s: State, e: Event, job: Job) {
    && Accepts(s, e) && !e.signal.AbortedSignal? && job.sequence == s.jobs.sequence + 1
    && IsAsked(e.runAt, job.runAt) && IsAsked(e.priority, job.priority)
    && (job.hasSignal <==> e.signal.LiveSignal?)
  }

  lemma NormalizedIsAsked(asked: Option<Number>)
    ensures Normalized(asked).Some? <==> IsFinite(asked)
    ensures Normalized(asked).Some? ==> IsAsked(asked, Normalized(asked).value)
  {
  }

  // ----- Enqueueing -----

  lemma {:induction false} EnqueueEffect(s: State, e: Event, clock: Clock)
    requires e.EnqueueE?
    ensures var j, k := s.jobs, Step(s, e, clock).jobs;
            && k.accepted == (if Accepts(s, e) then j.accepted + {j.sequence + 1} else j.accepted)
            && k.started == j.started
            && k.outcome == (if Accepts(s, e) && e.signal.AbortedSignal?
                             then j.outcome[j.sequence + 1 := Rejected(Aborted)] else j.outcome)
            && j.sequence <= k.sequence && (Accepts(s, e) ==> k.sequence == j.sequence + 1)
    ensures !(Accepts(s, e) && !e.signal.AbortedSignal?) ==> Step(s, e, clock).jobs.pending == s.jobs.pending
    ensures Accepts(s, e) && !e.signal.AbortedSignal? ==>
              exists job :: IsJobOf(s, e, job) && Step(s, e, clock).jobs.pending == Insert(s.jobs.pending, job)
  {
    hide Arm, Insert, Normalized, IsAsked;
    NormalizedIsAsked(e.runAt);
    NormalizedIsAsked(e.priority);
    var r := EnqueueResultOf(s, e.runAt, e.priority);
    if r.Promise? && !e.signal.AbortedSignal? {
      var t := s.(samples := s.samples + 1);
      var job := Job(r.sequence, Normalized(e.runAt).value, Normalized(e.priority).value, clock(s.samples),
                     e.signal.LiveSignal?);
      ArmKeepsJobs(t.(jobs := AcceptJob(s.jobs, job)), clock);
      assert IsJobOf(s, e, job);
    }
  }

  // ----- Starting -----

  ghost predicate WasDue(job: Job, from: nat, to: nat, clock: Clock) {
    exists n :: from <= n < to && job.runAt <= clock(n)
  }

  // A pump starts the first few pending jobs, each at a sample at which it was due.
  lemma {:induction false} PumpTakesFront(s: State, clock: Clock) returns (m: nat)
    ensures var t := PumpLoop(s, clock);
            && m <= |s.jobs.pending| && s.samples <= t.samples
            && t.jobs.started == s.jobs.started + s.jobs.pending[..m] && t.jobs.pending == s.jobs.pending[m..]
            && t.jobs.outcome == s.jobs.outcome && t.jobs.accepted == s.jobs.accepted
            && t.jobs.sequence == s.jobs.sequence
            && forall k | 0 <= k < m :: WasDue(s.jobs.pending[k], s.samples, t.samples, clock)
    decreases |s.jobs.pending|
  {
    hide Arm, Flush, WasDue, PumpLoop;
    var pending := s.jobs.pending;
    if Running(s.jobs) < s.concurrency && pending != [] {
      PumpLoopStep(s, clock);
      if pending[0].runAt > clock(s.samples) {
        m := 0;
        ArmKeepsJobs(s.(samples := s.samples + 1), clock);
        ArmTakesSamples(s.(samples := s.samples + 1), clock);
        assert pending[..0] == [] && s.jobs.started + [] == s.jobs.started;
      } else {
        var rest := PumpTakesFront(StartHead(s), clock);
        m := rest + 1;
        assert pending[1..][..rest] == pending[1..m] && pending[1..][rest..] == pending[m..];
        assert s.jobs.started + [pending[0]] + pending[1..m] == s.jobs.started + pending[..m];
        forall k | 0 <= k < m
          ensures WasDue(pending[k], s.samples, PumpLoop(s, clock).samples, clock)
        {
          if k == 0 {
            DueAt(pending[0], s.samples, s.samples, PumpLoop(s, clock).samples, clock);
          } else {
            assert pending[k] == pending[1..][k - 1];
            DueLonger(pending[k], s.samples + 2, s.samples, PumpLoop(s, clock).samples, clock);
          }
        }
      }
    } else {
      m := 0;
      PumpLoopEnd(s, clock);
      FlushKeepsJobs(s);
      assert pending[..0] == [] && s.jobs.started + [] == s.jobs.started;
    }
  }

  lemma ArmTakesSamples(s: State, clock: Clock)
    ensures s.samples <= Arm(s, clock).samples
  {
  }

  lemma FlushKeepsJobs(s: State)
    ensures Flush(s).jobs == s.jobs && Flush(s).samples == s.samples
  {
  }

  lemma DueAt(job: Job, n: nat, from: nat, to: nat, clock: Clock)
    requires from <= n < to && job.runAt <= clock(n)
    ensures WasDue(job, from, to, clock)
  {
  }

  lemma DueLonger(job: Job, later: nat, from: nat, to: nat, clock: Clock)
    requires from <= later && WasDue(job, later, to, clock)
    ensures WasDue(job, from, to, clock)
  {
  }

  // Only a timer or an immediate starts jobs.
  lemma {:induction false} PumpStepEffect(s: State, e: Event, clock: Clock) returns (m: nat)
    requires e.TimerE? || e.ImmediateE?
    ensures var t := Step(s, e, clock);
            && m <= |s.jobs.pending| && s.samples <= t.samples
            && t.jobs.started == s.jobs.started + s.jobs.pending[..m] && t.jobs.pending == s.jobs.pending[m..]
            && t.jobs.outcome == s.jobs.outcome && t.jobs.accepted == s.jobs.accepted
            && t.jobs.sequence == s.jobs.sequence
            && forall k | 0 <= k < m :: WasDue(s.jobs.pending[k], s.samples, t.samples, clock)
  {
    hide PumpLoop, WasDue;
    var u := if e.TimerE? then s.(timer := false) else s.(immediate := false);
    m := PumpTakesFront(u, clock);
    if Step(s, e, clock) != PumpLoop(u, clock) {
      m := 0;
      assert s.jobs.pending[..0] == [] && s.jobs.started + [] == s.jobs.started;
    }
  }

  // ----- Everything else -----

  // How many of the pending jobs a step takes away, and how it settles them.
  ghost predicate Clears(s: State, e: Event) {
    e.ClearE? || (e == CloseE(false) && !s.closed && s.closeWait == NotClosing)
  }

  ghost predicate AbortsPending(s: State, e: Event) {
    e.AbortE? && e.q in s.jobs.listening && e.q in Sequences(s.jobs.pending)
  }

  ghost predicate EndsHandler(s: State, e: Event) {
    e.HandlerEndsE? && e.job in s.jobs.executing
  }

  // The promises a step settles, and how.
  ghost function Settled(s: State, e: Event): map<nat, Settlement> {
    if EndsHandler(s, e) then map[e.job := if e.ok then Fulfilled else Rejected(HandlerError)]
    else if AbortsPending(s, e) then map[e.q := Rejected(Aborted)]
    else if Clears(s, e) then
      map q | q in Sequences(s.jobs.pending) :: Rejected(if e.ClearE? then Cleared else QueueClosed)
    else if Accepts(s, e) && e.signal.AbortedSignal? then map[s.jobs.sequence + 1 := Rejected(Aborted)]
    else map[]
  }

  // What the other steps do to the jobs.
  ghost predicate Plain(s: State, e: Event, t: State) {
    && t.jobs.started == s.jobs.started && t.jobs.accepted == s.jobs.accepted && t.jobs.sequence == s.jobs.sequence
    && (forall job <- t.jobs.pending :: job in s.jobs.pending)
    && t.jobs.outcome == s.jobs.outcome + Settled(s, e)
  }

  lemma SamePlain(s: State, e: Event, t: State)
    requires t.jobs == s.jobs && Settled(s, e) == map[]
    ensures Plain(s, e, t)
  {
    assert s.jobs.outcome + map[] == s.jobs.outcome;
  }

  lemma {:induction false} RejectAllPlain(s: State, e: Event, t: State, reason: Reason)
    requires t.jobs == RejectAll(s.jobs, reason)
    requires Clears(s, e) && reason == if e.ClearE? then Cleared else QueueClosed
    ensures Plain(s, e, t)
  {
    hide SequenceList;
  }

  lemma {:induction false} CloseIsPlain(s: State, drain: bool, clock: Clock)
    ensures Plain(s, CloseE(drain), Close(s, drain, clock))
  {
    hide Arm, Drain, RejectAll, Plain;
    var begun := s.(closing := true, paused := false);
    ArmKeepsJobs(begun, clock);
    DrainKeepsJobs(Arm(begun, clock), clock);
    var t := Close(s, drain, clock);
    if Clears(s, CloseE(drain)) {
      RejectAllPlain(s, CloseE(drain), t, QueueClosed);
    } else {
      SamePlain(s, CloseE(drain), t);
    }
  }

  lemma {:induction false} ClearIsPlain(s: State, clock: Clock)
    ensures Plain(s, ClearE, Clear(s, clock))
  {
    hide Arm, RejectAll, Plain, Sequences;
    ArmKeepsJobs(s.(jobs := RejectAll(s.jobs, Cleared)), clock);
    if s.jobs.pending == [] {
      NoSequences(s.jobs.pending);
      SamePlain(s, ClearE, Clear(s, clock));
    } else {
      RejectAllPlain(s, ClearE, Clear(s, clock), Cleared);
    }
  }

  lemma NoSequences(js: seq<Job>)
    requires js == []
    ensures Sequences(js) == {}
  {
  }

  lemma {:induction false} AbortIsPlain(s: State, q: nat, clock: Clock)
    requires DistinctSequences(s.jobs.pending)
    ensures Plain(s, AbortE(q), AbortFires(s, q, clock))
  {
    hide Arm, Without, Sequences, DistinctSequences;
    ArmKeepsJobs(s.(jobs := AbortPending(s.jobs, q)), clock);
    if AbortsPending(s, AbortE(q)) {
      WithoutContents(s.jobs.pending, q);
    }
  }

  lemma {:induction false} HandlerEndsIsPlain(s: State, q: nat, ok: bool)
    ensures Plain(s, HandlerEndsE(q, ok), HandlerEnds(s, q, ok))
  {
    hide Sequences;
    if q !in s.jobs.executing {
      SamePlain(s, HandlerEndsE(q, ok), HandlerEnds(s, q, ok));
    }
  }

  lemma {:induction false} SlotFreedIsPlain(s: State, q: nat, clock: Clock)
    ensures Plain(s, SlotFreedE(q), SlotFreed(s, q, clock))
  {
    hide Arm, Sequences;
    ArmKeepsJobs(s.(jobs := FreeSlot(s.jobs, q)), clock);
    assert s.jobs.outcome + map[] == s.jobs.outcome;
  }

  lemma {:induction false} QuietIsPlain(s: State, e: Event, clock: Clock)
    requires e.PauseE? || e.ResumeE? || e.DrainE? || e.FinishCloseE?
    ensures Plain(s, e, Step(s, e, clock))
  {
    hide Arm, Drain, Sequences, Plain;
    ResumeKeepsJobs(s, clock);
    DrainKeepsJobs(s, clock);
    SamePlain(s, e, Step(s, e, clock));
  }

  // A step that neither enqueues nor pumps.
  lemma {:induction false} StepIsPlain(s: State, e: Event, clock: Clock)
    requires DistinctSequences(s.jobs.pending) && !e.EnqueueE? && !e.TimerE? && !e.ImmediateE?
    ensures Plain(s, e, Step(s, e, clock))
  {
    hide Plain, Close, Clear, AbortFires, DistinctSequences, Pause, Resume, Drain, HandlerEnds, SlotFreed, FinishClose;
    if e.CloseE? {
      CloseIsPlain(s, e.drain, clock);
    } else if e.ClearE? {
      ClearIsPlain(s, clock);
    } else if e.AbortE? {
      AbortIsPlain(s, e.q, clock);
    } else if e.HandlerEndsE? {
      HandlerEndsIsPlain(s, e.job, e.ok);
    } else if e.SlotFreedE? {
      SlotFreedIsPlain(s, e.slot, clock);
    } else {
      QuietIsPlain(s, e, clock);
    }
  }

  // ----- Over runs -----

  lemma DistinctPending(s: State)
    requires Inv(s)
    ensures DistinctSequences(s.jobs.pending) && Sorted(s.jobs.pending)
  {
  }

  lemma {:induction false} ReachedOneMore(
    concurrency: nat, maxPending: Option<nat>, events: seq<Event>, clock: Clock, i: nat
  )
    requires i < |events|
    ensures Reached(concurrency, maxPending, events[..i + 1], clock) ==
            Step(Reached(concurrency, maxPending, events[..i], clock), events[i], clock)
  {
    assert events[..i + 1][..i] == events[..i];
  }

  /** Every call settles exactly the promises that it should, as it should: the end of
      a handler as it ended, an abort its own pending job, clear() and an immediate close
      all pending jobs, and a call with an aborted signal its own. */
  lemma {:induction false} StepSettlesExactly(
    concurrency: nat, maxPending: Option<nat>, events: seq<Event>, clock: Clock, i: nat
  )
    requires 1 <= concurrency && i < |events|
    ensures var s := Reached(concurrency, maxPending, events[..i], clock);
            var t := Reached(concurrency, maxPending, events[..i + 1], clock);
            t.jobs.outcome == s.jobs.outcome + Settled(s, events[i])
            && (t.jobs.accepted == if Accepts(s, events[i]) then s.jobs.accepted + {s.jobs.sequence + 1} else s.jobs.accepted)
  {
    hide Inv, Step, Sequences;
    var s, e := Reached(concurrency, maxPending, events[..i], clock), events[i];
    ReachedOneMore(concurrency, maxPending, events, clock, i);
    ReachedInv(concurrency, maxPending, events[..i], clock);
    DistinctPending(s);
    if e.EnqueueE? {
      EnqueueEffect(s, e, clock);
    } else if e.TimerE? || e.ImmediateE? {
      var m := PumpStepEffect(s, e, clock);
    } else {
      StepIsPlain(s, e, clock);
    }
  }

  // Of two jobs the one that goes first: due earlier, or at the same time with the
  // higher priority, or with equal priority enqueued earlier.
  predicate GoesFirst(a: Job, b: Job) {
    a.runAt < b.runAt
    || (a.runAt == b.runAt && (a.priority > b.priority || (a.priority == b.priority && a.sequence < b.sequence)))
  }

  lemma {:induction false} SortedGoesFirst(js: seq<Job>, i: nat, j: nat)
    requires Sorted(js) && i < j < |js|
    ensures GoesFirst(js[i], js[j])
  {
  }

  /** A job starts at a sample of the clock that is not before the time it was to run
      at, and before every job that is then left pending: of those due at the same time
      none has a higher priority. The jobs that one step starts go in that order too. */
  lemma {:induction false} StartsAreDueAndFirst(
    concurrency: nat, maxPending: Option<nat>, events: seq<Event>, clock: Clock, i: nat
  )
    requires 1 <= concurrency && i < |events|
    ensures var s := Reached(concurrency, maxPending, events[..i], clock);
            var t := Reached(concurrency, maxPending, events[..i + 1], clock);
            && s.jobs.started <= t.jobs.started
            && forall k | |s.jobs.started| <= k < |t.jobs.started| ::
                 && t.jobs.started[k] in s.jobs.pending && WasDue(t.jobs.started[k], s.samples, t.samples, clock)
                 && (forall p <- t.jobs.pending :: GoesFirst(t.jobs.started[k], p))
                 && (forall l | k < l < |t.jobs.started| :: GoesFirst(t.jobs.started[k], t.jobs.started[l]))
  {
    hide Inv, Step, Sorted, GoesFirst, WasDue;
    var s, e := Reached(concurrency, maxPending, events[..i], clock), events[i];
    ReachedOneMore(concurrency, maxPending, events, clock, i);
    ReachedInv(concurrency, maxPending, events[..i], clock);
    DistinctPending(s);
    if e.EnqueueE? {
      EnqueueEffect(s, e, clock);
    } else if e.TimerE? || e.ImmediateE? {
      var m := PumpStepEffect(s, e, clock);
      var pending, t, base := s.jobs.pending, Step(s, e, clock), |s.jobs.started|;
      assert forall k | base <= k < base + m :: t.jobs.started[k] == pending[..m][k - base] == pending[k - base];
      forall k | |s.jobs.started| <= k < |t.jobs.started|
        ensures t.jobs.started[k] in pending && WasDue(t.jobs.started[k], s.samples, t.samples, clock)
        ensures forall p <- t.jobs.pending :: GoesFirst(t.jobs.started[k], p)
        ensures forall l | k < l < |t.jobs.started| :: GoesFirst(t.jobs.started[k], t.jobs.started[l])
      {
        assert t.jobs.started[k] == pending[k - base] && WasDue(pending[k - base], s.samples, t.samples, clock);
        FrontGoesFirst(pending, m, k - base);
        forall l | k < l < |t.jobs.started|
          ensures GoesFirst(t.jobs.started[k], t.jobs.started[l])
        {
          assert t.jobs.started[l] == pending[l - base];
        }
      }
    } else {
      StepIsPlain(s, e, clock);
    }
  }

  lemma {:induction false} FrontGoesFirst(pending: seq<Job>, m: nat, k: nat)
    requires Sorted(pending) && k < m <= |pending|
    ensures forall p <- pending[m..] :: GoesFirst(pending[k], p)
    ensures forall l | k < l < m :: GoesFirst(pending[k], pending[l])
  {
    hide Sorted, GoesFirst;
    forall l | k < l < |pending|
      ensures GoesFirst(pending[k], pending[l])
    {
      SortedGoesFirst(pending, k, l);
    }
  }

  // The call that got the number of the job, and what it asked for.
  ghost predicate AskedBy(
    concurrency: nat, maxPending: Option<nat>, events: seq<Event>, clock: Clock, i: nat, job: Job
  )
    requires i < |events|
  {
    var s, t := Reached(concurrency, maxPending, events[..i], clock), Reached(concurrency, maxPending, events[..i + 1], clock);
    IsJobOf(s, events[i], job) && t.jobs.sequence == job.sequence
  }

  /** Every job that is pending or was started carries what the call that got its number
      asked for: the time and the priority, 0 where it gave none, and its signal. */
  lemma {:induction false} JobsCarryWhatWasAsked(
    concurrency: nat, maxPending: Option<nat>, events: seq<Event>, clock: Clock, job: Job
  )
    requires 1 <= concurrency
    requires var j := Reached(concurrency, maxPending, events, clock).jobs; job in j.pending || job in j.started
    ensures exists i :: 0 <= i < |events| && AskedBy(concurrency, maxPending, events, clock, i, job)
    decreases |events|
  {
    hide Inv, Step, IsJobOf, Sequences, Sorted, WasDue, DistinctSequences, Insert;
    if events == [] {
      assert false;
    } else {
      var n := |events| - 1;
      var front, e := events[..n], events[n];
      var s := Reached(concurrency, maxPending, front, clock);
      assert events[..n + 1] == events;
      ReachedOneMore(concurrency, maxPending, events, clock, n);
      ReachedInv(concurrency, maxPending, front, clock);
      DistinctPending(s);
      CameFrom(s, e, clock, job);
      if job in s.jobs.pending || job in s.jobs.started {
        JobsCarryWhatWasAsked(concurrency, maxPending, front, clock, job);
        var i :| 0 <= i < n && AskedBy(concurrency, maxPending, front, clock, i, job);
        assert front[..i] == events[..i] && front[..i + 1] == events[..i + 1] && front[i] == events[i];
        assert AskedBy(concurrency, maxPending, events, clock, i, job);
      } else {
        assert AskedBy(concurrency, maxPending, events, clock, n, job);
      }
    }
  }

  lemma {:induction false} CameFrom(s: State, e: Event, clock: Clock, job: Job)
    requires DistinctSequences(s.jobs.pending)
    requires var j := Step(s, e, clock).jobs; job in j.pending || job in j.started
    ensures job in s.jobs.pending || job in s.jobs.started
            || (IsJobOf(s, e, job) && Step(s, e, clock).jobs.sequence == job.sequence)
  {
    hide Step, Sequences, WasDue, DistinctSequences, Insert, IsAsked;
    if e.EnqueueE? {
      EnqueueEffect(s, e, clock);
      if job !in s.jobs.pending && job !in s.jobs.started {
        var own :| IsJobOf(s, e, own) && Step(s, e, clock).jobs.pending == Insert(s.jobs.pending, own);
        InsertContents(s.jobs.pending, own);
      }
    } else if e.TimerE? || e.ImmediateE? {
      var m := PumpStepEffect(s, e, clock);
    } else {
      StepIsPlain(s, e, clock);
    }
  }

  // ----- Pausing -----

  // What a call does to the pause.
  ghost predicate PausedAfter(s: State, e: Event) {
    match e
    case PauseE => s.paused || !s.closed
    case ResumeE => s.paused && s.closed
    case CloseE(_) => s.paused && (s.closed || s.closeWait != NotClosing)
    case _ => s.paused
  }

  lemma {:induction false} StepPauses(s: State, e: Event, clock: Clock)
    ensures Step(s, e, clock).paused == PausedAfter(s, e)
  {
    hide Arm, PumpLoop, Insert, Without, Sequences, SequenceList, Drain;
    match e
    case EnqueueE(runAt, priority, signal) =>
      var r := EnqueueResultOf(s, runAt, priority);
      if r.Promise? && !signal.AbortedSignal? {
        var t := s.(samples := s.samples + 1);
        var job := Job(r.sequence, Normalized(runAt).value, Normalized(priority).value, clock(s.samples), signal.LiveSignal?);
        ArmKeepsFrame(t.(jobs := AcceptJob(s.jobs, job)), clock);
      }
    case ResumeE => ArmKeepsFrame(s.(paused := false), clock);
    case DrainE => DrainFrame(s, clock);
    case CloseE(drain) => ClosePauses(s, drain, clock);
    case ClearE => ArmKeepsFrame(s.(jobs := RejectAll(s.jobs, Cleared)), clock);
    case AbortE(q) => ArmKeepsFrame(s.(jobs := AbortPending(s.jobs, q)), clock);
    case SlotFreedE(q) => ArmKeepsFrame(s.(jobs := FreeSlot(s.jobs, q)), clock);
    case TimerE => PumpLoopFrame(s.(timer := false), clock);
    case ImmediateE => PumpLoopFrame(s.(immediate := false), clock);
    case _ =>
  }

  lemma {:induction false} ClosePauses(s: State, drain: bool, clock: Clock)
    ensures Close(s, drain, clock).paused == PausedAfter(s, CloseE(drain))
  {
    hide Arm, Drain, RejectAll;
    var begun := s.(closing := true, paused := false);
    ArmKeepsFrame(begun, clock);
    DrainFrame(Arm(begun, clock), clock);
  }

  /** A paused queue starts nothing until it is resumed or closed. */
  lemma {:induction false} PausedStartsNothing(s: State, events: seq<Event>, clock: Clock)
    requires Inv(s) && s.paused && forall i | 0 <= i < |events| :: !events[i].ResumeE? && !events[i].CloseE?
    ensures Run(s, events, clock).paused && Run(s, events, clock).jobs.started == s.jobs.started
    decreases |events|
  {
    hide Inv, Step;
    if events != [] {
      var front, e := events[..|events| - 1], events[|events| - 1];
      PausedStartsNothing(s, front, clock);
      var before := Run(s, front, clock);
      RunKeeps(s, front, clock);
      DistinctPending(before);
      StepPauses(before, e, clock);
      StartsOnlyUnpaused(before, e, clock);
    }
  }

  lemma {:induction false} StartsOnlyUnpaused(s: State, e: Event, clock: Clock)
    requires DistinctSequences(s.jobs.pending) && s.paused
    ensures Step(s, e, clock).jobs.started == s.jobs.started
  {
    hide PumpLoop, DistinctSequences, Insert;
    if e.EnqueueE? {
      EnqueueEffect(s, e, clock);
    } else if !e.TimerE? && !e.ImmediateE? {
      hide Step;
      StepIsPlain(s, e, clock);
    }
  }

  /** Pausing and resuming an open queue take effect. */
  lemma {:induction false} PauseAndResumeWork(s: State, clock: Clock)
    requires !s.closed
    ensures Step(s, PauseE, clock).paused && !Step(s, ResumeE, clock).paused
    ensures Step(s, PauseE, clock).jobs == s.jobs && Step(s, ResumeE, clock).jobs == s.jobs
  {
    hide Step;
    StepPauses(s, PauseE, clock);
    StepPauses(s, ResumeE, clock);
    QuietKeepsJobs(s, clock);
  }

  lemma {:induction false} QuietKeepsJobs(s: State, clock: Clock)
    ensures Step(s, PauseE, clock).jobs == s.jobs && Step(s, ResumeE, clock).jobs == s.jobs
  {
    hide Arm;
    ResumeKeepsJobs(s, clock);
  }

  // ----- Wakeups -----

  // At some sample in between, none of the jobs was due.
  ghost predicate NoneDue(jobs: seq<Job>, from: nat, to: nat, clock: Clock) {
    exists n :: from <= n < to && NotDueAt(jobs, n, clock)
  }

  ghost predicate NotDueAt(jobs: seq<Job>, n: nat, clock: Clock) {
    forall i | 0 <= i < |jobs| :: jobs[i].runAt > clock(n)
  }

  lemma {:induction false} PumpRunsDry(s: State, clock: Clock)
    requires JobsInv(s.jobs) && Running(s.jobs) <= s.concurrency
    ensures var t := PumpLoop(s, clock);
            && s.samples <= t.samples
            && (Running(t.jobs) == s.concurrency || t.jobs.pending == [] || NoneDue(t.jobs.pending, s.samples, t.samples, clock))
    decreases |s.jobs.pending|
  {
    hide JobsInv, PumpLoop, Arm, Flush, NoneDue, PendingSorted;
    if Running(s.jobs) < s.concurrency && s.jobs.pending != [] {
      PumpLoopStep(s, clock);
      var u := s.(samples := s.samples + 1);
      if s.jobs.pending[0].runAt > clock(s.samples) {
        PendingStaysSorted(s.jobs);
        HeadIsEarliest(s.jobs);
        ArmKeepsJobs(u, clock);
        ArmTakesSamples(u, clock);
        NoneDueAt(s.jobs.pending, s.samples, s.samples, Arm(u, clock).samples, clock);
      } else {
        StartFirstKeeps(s.jobs);
        PumpRunsDry(StartHead(s), clock);
        var t := PumpLoop(s, clock);
        if NoneDue(t.jobs.pending, s.samples + 2, t.samples, clock) {
          NoneDueLonger(t.jobs.pending, s.samples + 2, s.samples, t.samples, clock);
        }
      }
    } else {
      PumpLoopEnd(s, clock);
      FlushKeepsJobs(s);
    }
  }

  lemma NoneDueAt(jobs: seq<Job>, n: nat, from: nat, to: nat, clock: Clock)
    requires from <= n < to && jobs != [] && jobs[0].runAt > clock(n) && forall p <- jobs :: jobs[0].runAt <= p.runAt
    ensures NoneDue(jobs, from, to, clock)
  {
    assert NotDueAt(jobs, n, clock);
  }

  lemma NoneDueLonger(jobs: seq<Job>, later: nat, from: nat, to: nat, clock: Clock)
    requires from <= later && NoneDue(jobs, later, to, clock)
    ensures NoneDue(jobs, from, to, clock)
  {
  }

  /** When a wakeup that was armed comes, the queue starts jobs until every slot is taken,
      or nothing is pending, or nothing pending is due. */
  lemma {:induction false} WakeupStartsAllItCan(
    concurrency: nat, maxPending: Option<nat>, events: seq<Event>, clock: Clock, i: nat
  )
    requires 1 <= concurrency && i < |events|
    requires var s := Reached(concurrency, maxPending, events[..i], clock);
             (events[i].TimerE? && s.timer) || (events[i].ImmediateE? && s.immediate)
    ensures var s := Reached(concurrency, maxPending, events[..i], clock);
            var t := Reached(concurrency, maxPending, events[..i + 1], clock);
            Running(t.jobs) == concurrency || t.jobs.pending == [] || NoneDue(t.jobs.pending, s.samples, t.samples, clock)
  {
    hide Inv, NoneDue, PumpLoop, JobsInv;
    var s := Reached(concurrency, maxPending, events[..i], clock);
    ReachedOneMore(concurrency, maxPending, events, clock, i);
    ReachedInv(concurrency, maxPending, events[..i], clock);
    RunKeepsLimits(Initial(concurrency, maxPending), events[..i], clock);
    InvCoversJobs(s);
    ArmedWorks(s);
    PumpRunsDry(s.(timer := false), clock);
    PumpRunsDry(s.(immediate := false), clock);
  }

  lemma ArmedWorks(s: State)
    requires Inv(s)
    ensures Running(s.jobs) <= s.concurrency && (s.timer || s.immediate ==> !s.closed && !s.paused)
  {
  }

  // ----- What is armed -----

  // The immediate is armed for a job that was due when it was armed, the timer for one
  // that was not.
  ghost predicate ArmedRight(s: State, clock: Clock) {
    && (s.immediate ==> s.jobs.pending != [] && exists n :: 0 <= n < s.samples && s.jobs.pending[0].runAt <= clock(n))
    && (s.timer ==> s.jobs.pending != [] && exists n :: 0 <= n < s.samples && s.jobs.pending[0].runAt > clock(n))
  }

  lemma ArmIsRight(s: State, clock: Clock)
    requires MayArm(s)
    ensures ArmedRight(Arm(s, clock), clock)
  {
    assert s.jobs.pending != [] ==> s.samples < s.samples + 1;
  }

  lemma {:induction false} PumpIsRight(s: State, clock: Clock)
    requires !s.timer && !s.immediate
    ensures ArmedRight(PumpLoop(s, clock), clock)
    decreases |s.jobs.pending|
  {
    hide Arm, PumpLoop;
    if Running(s.jobs) < s.concurrency && s.jobs.pending != [] {
      PumpLoopStep(s, clock);
      if s.jobs.pending[0].runAt > clock(s.samples) {
        ArmIsRight(s.(samples := s.samples + 1), clock);
      } else {
        PumpIsRight(StartHead(s), clock);
      }
    } else {
      PumpLoopEnd(s, clock);
      FlushArmsNothing(s);
    }
  }

  lemma FlushArmsNothing(s: State)
    ensures Flush(s).timer == s.timer && Flush(s).immediate == s.immediate
  {
  }

  lemma SameIsRight(s: State, t: State, clock: Clock)
    requires ArmedRight(s, clock) && t.timer == s.timer && t.immediate == s.immediate
    requires t.jobs.pending == s.jobs.pending && s.samples <= t.samples
    ensures ArmedRight(t, clock)
  {
  }

  lemma UnarmedIsRight(t: State, clock: Clock)
    requires !t.timer && !t.immediate
    ensures ArmedRight(t, clock)
  {
  }

  lemma MayRearm(s: State)
    requires Inv(s)
    ensures MayArm(s) && (s.timer || s.immediate ==> Running(s.jobs) < s.concurrency && !s.paused && !s.closed)
  {
  }

  lemma {:induction false} EnqueueIsRight(s: State, e: Event, clock: Clock)
    requires Inv(s) && ArmedRight(s, clock) && e.EnqueueE?
    ensures ArmedRight(Step(s, e, clock), clock)
  {
    hide Inv, Arm, ArmedRight, Insert, Normalized;
    MayRearm(s);
    var r := EnqueueResultOf(s, e.runAt, e.priority);
    var t := s.(samples := s.samples + 1);
    if r.Promise? && !e.signal.AbortedSignal? {
      var job := Job(r.sequence, Normalized(e.runAt).value, Normalized(e.priority).value, clock(s.samples),
                     e.signal.LiveSignal?);
      ArmIsRight(t.(jobs := AcceptJob(s.jobs, job)), clock);
    } else {
      SameIsRight(s, Step(s, e, clock), clock);
    }
  }

  lemma {:induction false} CloseIsRight(s: State, drain: bool, clock: Clock)
    requires Inv(s) && ArmedRight(s, clock)
    ensures ArmedRight(Close(s, drain, clock), clock)
  {
    hide Inv, Arm, ArmedRight, RejectAll, Release;
    MayRearm(s);
    if s.closed || s.closeWait != NotClosing {
    } else if drain {
      var begun := s.(closing := true, paused := false);
      ArmIsRight(begun, clock);
      DrainIsRight(begun, clock);
      SameIsRight(Drain(Arm(begun, clock), clock), Close(s, drain, clock), clock);
    } else {
      UnarmedIsRight(Close(s, drain, clock), clock);
    }
  }

  lemma {:induction false} DrainIsRight(s: State, clock: Clock)
    requires MayArm(s)
    ensures ArmedRight(Drain(Arm(s, clock), clock), clock)
  {
    hide ArmedRight;
    var armed := Arm(s, clock);
    ArmIsRight(s, clock);
    ArmIsRight(armed.(waiters := armed.waiters + [armed.nextWaiter], nextWaiter := armed.nextWaiter + 1), clock);
  }

  lemma {:induction false} RearmIsRight(s: State, e: Event, clock: Clock)
    requires Inv(s) && ArmedRight(s, clock)
    requires e.ResumeE? || e.DrainE? || e.ClearE? || e.AbortE? || e.SlotFreedE?
    ensures ArmedRight(Step(s, e, clock), clock)
  {
    hide Inv, Arm, ArmedRight, RejectAll, AbortPending, Sequences;
    MayRearm(s);
    match e
    case ResumeE => ArmIsRight(s.(paused := false), clock);
    case DrainE => ArmIsRight(s.(waiters := s.waiters + [s.nextWaiter], nextWaiter := s.nextWaiter + 1), clock);
    case ClearE =>
      RejectKeepsRunning(s.jobs, Cleared);
      ArmIsRight(s.(jobs := RejectAll(s.jobs, Cleared)), clock);
    case AbortE(q) =>
      AbortKeepsRunning(s.jobs, q);
      ArmIsRight(s.(jobs := AbortPending(s.jobs, q)), clock);
      SameIsRight(s, s.(jobs := s.jobs.(listening := s.jobs.listening - {q})), clock);
    case SlotFreedE(q) =>
      FreeingLowers(s.jobs, q);
      ArmIsRight(s.(jobs := FreeSlot(s.jobs, q)), clock);
  }

  lemma RejectKeepsRunning(j: Jobs, reason: Reason)
    ensures Running(RejectAll(j, reason)) == Running(j)
  {
  }

  lemma AbortKeepsRunning(j: Jobs, q: nat)
    ensures Running(AbortPending(j, q)) == Running(j)
  {
  }

  lemma FreeingLowers(j: Jobs, q: nat)
    ensures Running(FreeSlot(j, q)) <= Running(j)
  {
    if q in j.unwinding {
      assert |j.unwinding - {q}| == |j.unwinding| - 1;
    } else {
      assert j.unwinding - {q} == j.unwinding;
    }
  }

  lemma {:induction false} StepIsRight(s: State, e: Event, clock: Clock)
    requires Inv(s) && ArmedRight(s, clock)
    ensures ArmedRight(Step(s, e, clock), clock)
  {
    hide Inv, ArmedRight, PumpLoop, Close;
    MayRearm(s);
    match e
    case EnqueueE(_, _, _) => EnqueueIsRight(s, e, clock);
    case PauseE =>
      if Step(s, e, clock) != s {
        UnarmedIsRight(Step(s, e, clock), clock);
      }
    case CloseE(drain) => CloseIsRight(s, drain, clock);
    case TimerE => OnePump(s, e, clock);
    case ImmediateE => OnePump(s, e, clock);
    case HandlerEndsE(_, _) => SameIsRight(s, Step(s, e, clock), clock);
    case FinishCloseE =>
      if Step(s, e, clock) != s {
        UnarmedIsRight(Step(s, e, clock), clock);
      }
    case _ => RearmIsRight(s, e, clock);
  }

  lemma {:induction false} OnePump(s: State, e: Event, clock: Clock)
    requires Inv(s) && ArmedRight(s, clock) && (e.TimerE? || e.ImmediateE?)
    ensures ArmedRight(Step(s, e, clock), clock)
  {
    hide Inv, ArmedRight, PumpLoop;
    NotBoth(s);
    MayRearm(s);
    if e.TimerE? && s.timer {
      PumpIsRight(s.(timer := false), clock);
    } else if e.ImmediateE? && s.immediate {
      PumpIsRight(s.(immediate := false), clock);
    }
  }

  lemma NotBoth(s: State)
    requires Inv(s)
    ensures !(s.timer && s.immediate)
  {
  }

  /** Whenever the immediate is armed its job was due when it was armed, and whenever the
      timer is armed its job was not. */
  lemma {:induction false} ArmedByDueTime(
    concurrency: nat, maxPending: Option<nat>, events: seq<Event>, clock: Clock
  )
    requires 1 <= concurrency
    ensures ArmedRight(Reached(concurrency, maxPending, events, clock), clock)
    decreases |events|
  {
    hide Inv, ArmedRight, Step;
    if events == [] {
      UnarmedIsRight(Initial(concurrency, maxPending), clock);
    } else {
      var n := |events| - 1;
      ArmedByDueTime(concurrency, maxPending, events[..n], clock);
      ReachedInv(concurrency, maxPending, events[..n], clock);
      assert events[..n + 1] == events;
      ReachedOneMore(concurrency, maxPending, events, clock, n);
      StepIsRight(Reached(concurrency, maxPending, events[..n], clock), events[n], clock);
    }
  }
}
