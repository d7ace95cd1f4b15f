/**
 The in-memory job queue as a state machine on values. A state holds the
 queue's own fields together with what its promises and closures amount to:
 which accepted jobs are executing, which have settled, in what order jobs
 were started, and which drain() callers wait.

 The clock is an arbitrary function of the sample number; every reading the
 code takes is a sample of its own.
 */
module QueueModel {

  import opened Options

  // A number argument, which may be NaN or infinite.
  datatype Number = Finite(value: real) | NotFinite

  datatype Job = Job(sequence: nat, runAt: real, priority: real, enqueuedAt: real, hasSignal: bool)

  datatype Reason = Aborted | QueueClosed | Cleared | HandlerError

  datatype Settlement = Fulfilled | Rejected(reason: Reason)

  // What the continuation of a draining close() waits for.
  datatype CloseWait = NotClosing | WaitingFor(waiter: nat) | DrainDone

  datatype Signal = NoSignal | LiveSignal | AbortedSignal

  type Clock = nat -> real

  // Where the jobs are. `unwinding` jobs are settled but have not yet given
  // their slot back; `settlements` has one entry per settling call on a job's
  // promise; `listening` are the jobs whose abort listener is registered.
  datatype Jobs = Jobs(
    pending: seq<Job>,
    executing: set<nat>,
    unwinding: set<nat>,
    accepted: set<nat>,
    outcome: map<nat, Settlement>,
    settlements: multiset<nat>,
    started: seq<Job>,
    listening: set<nat>,
    sequence: nat)

  datatype State = State(
    concurrency: nat,
    maxPending: Option<nat>,
    jobs: Jobs,
    paused: bool,
    closing: bool,
    closed: bool,
    timer: bool,
    immediate: bool,
    waiters: seq<nat>,
    nextWaiter: nat,
    closeWait: CloseWait,
    samples: nat)

  function Initial(concurrency: nat, maxPending: Option<nat>): State {
    State(concurrency, maxPending, Jobs([], {}, {}, {}, map[], multiset{}, [], {}, 0),
          false, false, false, false, false, [], 0, NotClosing, 0)
  }

  function Running(j: Jobs): nat {
    |j.executing| + |j.unwinding|
  }

  predicate Idle(j: Jobs) {
    j.pending == [] && Running(j) == 0
  }

  // ----- The pending list -----

  predicate Before(a: Job, b: Job) {
    if a.runAt != b.runAt then a.runAt < b.runAt
    else if a.priority != b.priority then a.priority > b.priority
    else a.sequence < b.sequence
  }

  ghost predicate Sorted(js: seq<Job>) {
    forall i, j :: 0 <= i < j < |js| ==> Before(js[i], js[j])
  }

  function Sequences(js: seq<Job>): set<nat> {
    set j | j in js :: j.sequence
  }

  ghost predicate DistinctSequences(js: seq<Job>) {
    forall i, j :: 0 <= i < j < |js| ==> js[i].sequence != js[j].sequence
  }

  function Insert(js: seq<Job>, job: Job): seq<Job> {
    if js == [] || Before(job, js[0]) then [job] + js else [js[0]] + Insert(js[1..], job)
  }

  lemma {:induction false} InsertContents(js: seq<Job>, job: Job)
    ensures multiset(Insert(js, job)) == multiset(js) + multiset{job}
    ensures |Insert(js, job)| == |js| + 1
    ensures forall x :: x in Insert(js, job) <==> x in js || x == job
  {
    if js == [] || Before(job, js[0]) {
      assert multiset([job] + js) == multiset([job]) + multiset(js);
    } else {
      InsertContents(js[1..], job);
      assert js == [js[0]] + js[1..];
    }
  }

  lemma {:induction false} InsertSorts(js: seq<Job>, job: Job)
    requires Sorted(js) && job.sequence !in Sequences(js)
    ensures Sorted(Insert(js, job))
  {
    if js != [] && !Before(job, js[0]) {
      var head, rest := js[0], js[1..];
      assert head in js;
      assert js == [head] + rest;
      InsertSorts(rest, job);
      InsertContents(rest, job);
      forall p | p in Insert(rest, job)
        ensures Before(head, p)
      {
      }
      SortedCons(head, Insert(rest, job));
    }
  }

  lemma {:induction false} SortedCons(head: Job, rest: seq<Job>)
    requires Sorted(rest) && forall p :: p in rest ==> Before(head, p)
    ensures Sorted([head] + rest)
  {
    var js := [head] + rest;
    forall i, j | 0 <= i < j < |js|
      ensures Before(js[i], js[j])
    {
      assert js[j] == rest[j - 1];
      assert js[j] in rest;
    }
  }

  // Sorting a list is determined: any sorted arrangement of the same jobs is
  // the one insertion gives.
  lemma {:induction false} SortedUnique(a: seq<Job>, b: seq<Job>)
    requires Sorted(a) && Sorted(b) && multiset(a) == multiset(b)
    ensures a == b
  {
    if a == [] || b == [] {
      assert |multiset(a)| == |a| && |multiset(b)| == |b|;
    } else {
      SameFirst(a, b);
      SortedRest(a);
      SortedRest(b);
      hide Sorted;
      assert a == [a[0]] + a[1..] && b == [b[0]] + b[1..];
      assert multiset(a[1..]) == multiset(a) - multiset{a[0]};
      assert multiset(b[1..]) == multiset(b) - multiset{b[0]};
      SortedUnique(a[1..], b[1..]);
    }
  }

  lemma SortedRest(js: seq<Job>)
    requires Sorted(js) && js != []
    ensures Sorted(js[1..])
  {
  }

  lemma {:induction false} SameFirst(a: seq<Job>, b: seq<Job>)
    requires Sorted(a) && Sorted(b) && multiset(a) == multiset(b) && a != [] && b != []
    ensures a[0] == b[0]
  {
    assert a[0] in multiset(b) && b[0] in multiset(a);
    var i :| 0 <= i < |b| && b[i] == a[0];
    var j :| 0 <= j < |a| && a[j] == b[0];
  }

  // ----- What happens to jobs -----

  function SettleJob(j: Jobs, q: nat, how: Settlement): Jobs {
    j.(outcome := j.outcome[q := how], settlements := j.settlements + multiset{q})
  }

  function AcceptJob(j: Jobs, job: Job): Jobs {
    j.(pending := Insert(j.pending, job),
       sequence := job.sequence,
       accepted := j.accepted + {job.sequence},
       listening := if job.hasSignal then j.listening + {job.sequence} else j.listening)
  }

  // A job whose signal is already aborted is settled without being queued.
  function RefuseAborted(j: Jobs, q: nat): Jobs {
    SettleJob(j.(sequence := q, accepted := j.accepted + {q}), q, Rejected(Aborted))
  }

  function StartFirst(j: Jobs): Jobs
    requires j.pending != []
  {
    var job := j.pending[0];
    j.(pending := j.pending[1..],
       executing := j.executing + {job.sequence},
       started := j.started + [job],
       listening := j.listening - {job.sequence})
  }

  function RejectedMap(all: set<nat>, reason: Reason): map<nat, Settlement> {
    map q | q in all :: Rejected(reason)
  }

  function RejectAll(j: Jobs, reason: Reason): Jobs {
    var all := Sequences(j.pending);
    j.(pending := [],
       outcome := j.outcome + RejectedMap(all, reason),
       settlements := j.settlements + multiset(SequenceList(j.pending)),
       listening := j.listening - all)
  }

  function SequenceList(js: seq<Job>): seq<nat> {
    if js == [] then [] else [js[0].sequence] + SequenceList(js[1..])
  }

  function Without(js: seq<Job>, q: nat): seq<Job> {
    if js == [] then [] else if js[0].sequence == q then js[1..] else [js[0]] + Without(js[1..], q)
  }

  function AbortPending(j: Jobs, q: nat): Jobs {
    SettleJob(j.(pending := Without(j.pending, q), listening := j.listening - {q}), q, Rejected(Aborted))
  }

  function EndJob(j: Jobs, q: nat, ok: bool): Jobs {
    SettleJob(j.(executing := j.executing - {q}, unwinding := j.unwinding + {q}), q,
              if ok then Fulfilled else Rejected(HandlerError))
  }

  function FreeSlot(j: Jobs, q: nat): Jobs {
    j.(unwinding := j.unwinding - {q})
  }

  // ----- Helpers of the queue -----

  // Resolving idle waiters; a close() among them can then continue.
  function Release(s: State): State {
    s.(waiters := [],
       closeWait := if s.closeWait.WaitingFor? && s.closeWait.waiter in s.waiters then DrainDone else s.closeWait)
  }

  function Flush(s: State): State {
    if Idle(s.jobs) then Release(s) else s
  }

  function Unarmed(s: State): State {
    s.(timer := false, immediate := false)
  }

  function Arm(s: State, clock: Clock): State {
    if s.closed || s.paused || Running(s.jobs) >= s.concurrency then s
    else if s.jobs.pending == [] then Flush(Unarmed(s))
    else
      var later := s.jobs.pending[0].runAt > clock(s.samples);
      s.(timer := later, immediate := !later, samples := s.samples + 1)
  }

  // One sample for the due check, one for the start time.
  function StartHead(s: State): State
    requires s.jobs.pending != []
  {
    s.(jobs := StartFirst(s.jobs), samples := s.samples + 2)
  }

  function PumpLoop(s: State, clock: Clock): State
    decreases |s.jobs.pending|
  {
    if Running(s.jobs) < s.concurrency && s.jobs.pending != [] then
      if s.jobs.pending[0].runAt > clock(s.samples) then Arm(s.(samples := s.samples + 1), clock)
      else PumpLoop(StartHead(s), clock)
    else Flush(s)
  }

  // The loop of the pump, unrolled once.
  lemma {:induction false} PumpLoopStep(s: State, clock: Clock)
    requires Running(s.jobs) < s.concurrency && s.jobs.pending != []
    ensures PumpLoop(s, clock) ==
            if s.jobs.pending[0].runAt > clock(s.samples) then Arm(s.(samples := s.samples + 1), clock)
            else PumpLoop(StartHead(s), clock)
  {
  }

  lemma {:induction false} PumpLoopEnd(s: State, clock: Clock)
    requires !(Running(s.jobs) < s.concurrency && s.jobs.pending != [])
    ensures PumpLoop(s, clock) == Flush(s)
  {
  }

  function Pump(s: State, clock: Clock): State {
    if s.closed || s.paused then s else PumpLoop(s, clock)
  }

  // ----- Public methods -----

  datatype EnqueueResult = Refused | Full | TypeError | Promise(sequence: nat)

  function Normalized(n: Option<Number>): Option<real> {
    match n
    case None => Some(0.0)
    case Some(Finite(v)) => Some(v)
    case Some(NotFinite) => None
  }

  function EnqueueResultOf(s: State, runAt: Option<Number>, priority: Option<Number>): EnqueueResult {
    if s.closed || s.closing then Refused
    else if s.maxPending.Some? && |s.jobs.pending| >= s.maxPending.value then Full
    else if Normalized(priority).None? || Normalized(runAt).None? then TypeError
    else Promise(s.jobs.sequence + 1)
  }

  function Queued(s: State, job: Job, clock: Clock): State {
    Arm(s.(jobs := AcceptJob(s.jobs, job)), clock)
  }

  function Enqueue(s: State, runAt: Option<Number>, priority: Option<Number>, signal: Signal, clock: Clock): State {
    match EnqueueResultOf(s, runAt, priority)
    case Refused => s
    case Full => s
    case TypeError => s.(jobs := s.jobs.(sequence := s.jobs.sequence + 1), samples := s.samples + 1)
    case Promise(q) =>
      var t := s.(samples := s.samples + 1);
      if signal.AbortedSignal? then t.(jobs := RefuseAborted(s.jobs, q))
      else
        Queued(t, Job(q, Normalized(runAt).value, Normalized(priority).value, clock(s.samples), signal.LiveSignal?), clock)
  }

  function Pause(s: State): State {
    if s.paused || s.closed then s else Unarmed(s.(paused := true))
  }

  function Resume(s: State, clock: Clock): State {
    if !s.paused || s.closed then s else Arm(s.(paused := false), clock)
  }

  // A caller of drain() on a busy queue becomes a waiter.
  function Drain(s: State, clock: Clock): State {
    if Idle(s.jobs) then s
    else Arm(s.(waiters := s.waiters + [s.nextWaiter], nextWaiter := s.nextWaiter + 1), clock)
  }

  function CloseNow(s: State): State {
    Unarmed(Release(s.(jobs := RejectAll(s.jobs, QueueClosed), paused := false, closed := true, closing := false)))
  }

  function CloseDraining(s: State, clock: Clock): State {
    var armed := Arm(s.(closing := true, paused := false), clock);
    Drain(armed, clock).(closeWait := if Idle(armed.jobs) then DrainDone else WaitingFor(armed.nextWaiter))
  }

  function Close(s: State, drain: bool, clock: Clock): State {
    if s.closed || s.closeWait != NotClosing then s
    else if drain then CloseDraining(s, clock)
    else CloseNow(s)
  }

  function Clear(s: State, clock: Clock): State {
    if s.jobs.pending == [] then s else Arm(s.(jobs := RejectAll(s.jobs, Cleared)), clock)
  }

  // ----- Callbacks: listeners, timers, promise continuations -----

  // The registered abort listener of a job runs once.
  function AbortFires(s: State, q: nat, clock: Clock): State {
    if q !in s.jobs.listening then s
    else if q !in Sequences(s.jobs.pending) then s.(jobs := s.jobs.(listening := s.jobs.listening - {q}))
    else Arm(s.(jobs := AbortPending(s.jobs, q)), clock)
  }

  function TimerFires(s: State, clock: Clock): State {
    if s.timer then Pump(s.(timer := false), clock) else s
  }

  function ImmediateFires(s: State, clock: Clock): State {
    if s.immediate then Pump(s.(immediate := false), clock) else s
  }

  // The handler's promise settles, and with it the job's.
  function HandlerEnds(s: State, q: nat, ok: bool): State {
    if q in s.jobs.executing then s.(jobs := EndJob(s.jobs, q, ok)) else s
  }

  // The final continuation of a started job gives its slot back.
  function SlotFreed(s: State, q: nat, clock: Clock): State {
    if q in s.jobs.unwinding then Arm(s.(jobs := FreeSlot(s.jobs, q)), clock) else s
  }

  // The continuation of a draining close() after its drain() resolved.
  function FinishClose(s: State): State {
    if s.closeWait.DrainDone? then Unarmed(s.(closed := true, closing := false, closeWait := NotClosing)) else s
  }

  datatype Event =
    | EnqueueE(runAt: Option<Number>, priority: Option<Number>, signal: Signal)
    | PauseE | ResumeE | DrainE | CloseE(drain: bool) | ClearE
    | AbortE(q: nat) | TimerE | ImmediateE | HandlerEndsE(job: nat, ok: bool) | SlotFreedE(slot: nat)
    | FinishCloseE

  function Step(s: State, e: Event, clock: Clock): State {
    match e
    case EnqueueE(runAt, priority, signal) => Enqueue(s, runAt, priority, signal, clock)
    case PauseE => Pause(s)
    case ResumeE => Resume(s, clock)
    case DrainE => Drain(s, clock)
    case CloseE(drain) => Close(s, drain, clock)
    case ClearE => Clear(s, clock)
    case AbortE(q) => AbortFires(s, q, clock)
    case TimerE => TimerFires(s, clock)
    case ImmediateE => ImmediateFires(s, clock)
    case HandlerEndsE(q, ok) => HandlerEnds(s, q, ok)
    case SlotFreedE(q) => SlotFreed(s, q, clock)
    case FinishCloseE => FinishClose(s)
  }

  function Run(s: State, events: seq<Event>, clock: Clock): State {
    if events == [] then s
    else Step(Run(s, events[..|events| - 1], clock), events[|events| - 1], clock)
  }
}
