/**
 The starter's asynchronous queue, and the merge of two sources into one stream
 by racing one outstanding read of each.
 */
module MergeStreams {

  import opened Options

  // ----- The queue -----

  datatype Read<T> = Value(value: T) | End

  // What has happened to a queue: the values it accepted, and how many reads were made.
  datatype Queue<T> = Queue(accepted: seq<T>, asked: nat, closed: bool)

  function Pushed<T>(q: Queue<T>, value: T): Queue<T> {
    if q.closed then q else q.(accepted := q.accepted + [value])
  }

  // The k-th read gets the k-th value; past the last one it ends once the queue is closed.
  function Result<T>(q: Queue<T>, k: nat): Option<Read<T>> {
    if k < |q.accepted| then Some(Value(q.accepted[k])) else if q.closed then Some(End) else None
  }

  function Given<T>(results: map<nat, Read<T>>, k: nat): Option<Read<T>> {
    if k in results then Some(results[k]) else None
  }

  // The read has the result it should have.
  ghost predicate Served<T>(results: map<nat, Read<T>>, q: Queue<T>, k: nat) {
    Given(results, k) == if k < q.asked then Result(q, k) else None
  }

  class StarterAsyncQueue<T(!new)> {
    var values: seq<T>
    // The reads that wait, by number, first come first.
    var waiters: seq<nat>
    var closed: bool
    // The number the next read gets, and the results handed out.
    var asked: nat
    var results: map<nat, Read<T>>
    ghost var accepted: seq<T>

    ghost function Model(): Queue<T>
      reads this
    {
      Queue(accepted, asked, closed)
    }

    // Never values and waiters together; every read has the result it should have.
    ghost predicate Valid()
      reads this
    {
      && (values == [] || waiters == [])
      && values == (if asked <= |accepted| then accepted[asked..] else [])
      && (closed ==> waiters == [])
      && |waiters| == (if closed || asked <= |accepted| then 0 else asked - |accepted|)
      && (forall j | 0 <= j < |waiters| :: waiters[j] == |accepted| + j)
      && (forall k: nat :: Served(results, Model(), k))
    }

    constructor ()
      ensures Valid() && Model() == Queue([], 0, false)
    {
      values, waiters, closed, asked, results, accepted := [], [], false, 0, map[], [];
    }

    method Push(value: T)
      requires Valid()
      modifies this
      ensures Valid() && Model() == Pushed(old(Model()), value)
    {
      if closed {
        return;
      }
      ghost var before, q := results, Model();
      accepted := accepted + [value];
      if |waiters| > 0 {
        var waiter := waiters[0];
        waiters := waiters[1..];
        results := results[waiter := Value(value)];
      } else {
        values := values + [value];
      }
      forall k: nat
        ensures Served(results, Model(), k)
      {
        assert Served(before, q, k);
      }
    }

    method Close()
      requires Valid()
      modifies this
      ensures Valid() && Model() == old(Model()).(closed := true)
    {
      if closed {
        return;
      }
      ghost var before, q, waiting := results, Model(), waiters;
      assert forall j | 0 <= j < |waiting| :: waiting[j] == |q.accepted| + j;
      closed := true;
      while |waiters| > 0
        invariant closed && accepted == q.accepted && asked == q.asked && values == old(values)
        invariant |waiters| <= |waiting| && waiters == waiting[|waiting| - |waiters|..]
        invariant forall k: nat ::
                    Given(results, k) ==
                    (if |accepted| <= k < |accepted| + |waiting| - |waiters| then Some(End) else Given(before, k))
      {
        assert waiters[0] == waiting[|waiting| - |waiters|] == |q.accepted| + |waiting| - |waiters|;
        ghost var given := results;
        var waiter := waiters[0];
        results := results[waiter := End];
        waiters := waiters[1..];
        assert forall k: nat :: Given(results, k) == if k == waiter then Some(End) else Given(given, k);
      }
      forall k: nat
        ensures Served(results, Model(), k)
      {
        assert Served(before, q, k);
      }
    }

    // The number of the read, and its result when there is one at once.
    method Next() returns (k: nat, result: Option<Read<T>>)
      requires Valid()
      modifies this
      ensures Valid() && Model() == old(Model()).(asked := old(asked) + 1)
      ensures k == old(asked) && result == Result(Model(), k)
    {
      ghost var before, q := results, Model();
      k := asked;
      assert Served(before, q, k);
      asked := asked + 1;
      if |values| > 0 {
        result := Some(Value(values[0]));
        values := values[1..];
        results := results[k := result.value];
      } else if closed {
        result := Some(End);
        results := results[k := End];
      } else {
        result := None;
        waiters := waiters + [k];
      }
      forall j: nat
        ensures Served(results, Model(), j)
      {
        assert Served(before, q, j);
      }
    }
  }

  // ----- The merge -----

  // The outstanding read of the bootstrap source.
  datatype Slot = Absent | Outstanding | Settled

  datatype Item<T> = FromBootstrap(chunk: T) | FromRuntime(event: T)

  // Running until the loop ends, or its consumer leaves.
  datatype Phase = Running | Ended | Abandoned

  datatype State<T> = State(
    queue: Queue<T>,
    output: seq<Item<T>>,
    bootstrapNext: Slot,
    taken: nat,
    runtimeNext: bool,
    bootstrapDone: bool,
    runtimeDone: bool,
    phase: Phase)

  // Both sources have been asked once.
  function Initial<T>(): State<T> {
    State(Queue([], 1, false), [], Outstanding, 0, true, false, false, Running)
  }

  // The producer pushes and closes, the bootstrap source answers, and the loop
  // takes whichever settled read wins the race.
  datatype Step<T> =
    | Pushes(value: T)
    | Closes
    | BootstrapAnswers
    | TakesBootstrap
    | TakesRuntime
    | Finishes
    | Leaves

  function RuntimeResult<T>(s: State<T>): Option<Read<T>> {
    if s.runtimeNext && s.queue.asked > 0 then Result(s.queue, s.queue.asked - 1) else None
  }

  predicate Enabled<T>(s: State<T>, step: Step<T>) {
    match step
    case BootstrapAnswers => s.bootstrapNext == Outstanding
    case TakesBootstrap => s.phase == Running && s.bootstrapNext == Settled
    case TakesRuntime => s.phase == Running && RuntimeResult(s).Some?
    case Finishes => s.phase == Running && s.bootstrapDone && s.runtimeDone
    case Leaves => s.phase == Running
    case _ => true
  }

  // `source` is the whole bootstrap sequence.
  function Advance<T>(s: State<T>, step: Step<T>, source: seq<T>): State<T>
    requires Enabled(s, step)
  {
    match step
    case Pushes(value) => s.(queue := Pushed(s.queue, value))
    case Closes => s.(queue := s.queue.(closed := true))
    case BootstrapAnswers => s.(bootstrapNext := Settled)
    case TakesBootstrap =>
      if s.taken >= |source| then
        s.(bootstrapDone := true, bootstrapNext := Absent, queue := s.queue.(closed := true))
      else
        s.(bootstrapNext := Outstanding, taken := s.taken + 1, output := s.output + [FromBootstrap(source[s.taken])])
    case TakesRuntime =>
      (match RuntimeResult(s).value
       case End => s.(runtimeDone := true, runtimeNext := false)
       case Value(v) =>
         s.(queue := s.queue.(asked := s.queue.asked + 1), output := s.output + [FromRuntime(v)]))
    case Finishes => s.(phase := Ended, queue := s.queue.(closed := true))
    case Leaves => s.(phase := Abandoned, queue := s.queue.(closed := true))
  }

  function BootstrapPart<T>(output: seq<Item<T>>): seq<T> {
    if output == [] then []
    else
      var last := output[|output| - 1];
      BootstrapPart(output[..|output| - 1]) + (if last.FromBootstrap? then [last.chunk] else [])
  }

  function RuntimePart<T>(output: seq<Item<T>>): seq<T> {
    if output == [] then []
    else
      var last := output[|output| - 1];
      RuntimePart(output[..|output| - 1]) + (if last.FromRuntime? then [last.event] else [])
  }

  // The number of runtime values handed on: all reads but the one outstanding.
  function RuntimeTaken<T>(s: State<T>): int {
    s.queue.asked - 1
  }

  ghost predicate Inv<T>(s: State<T>, source: seq<T>) {
    && s.taken <= |source| && BootstrapPart(s.output) == source[..s.taken]
    && 0 <= RuntimeTaken(s) <= |s.queue.accepted|
    && RuntimePart(s.output) == s.queue.accepted[..RuntimeTaken(s)]
    && (s.bootstrapDone ==> s.taken == |source| && s.queue.closed && s.bootstrapNext == Absent)
    && (!s.bootstrapDone ==> s.bootstrapNext != Absent)
    && (s.runtimeDone <==> !s.runtimeNext)
    && (s.runtimeDone ==> s.queue.closed && RuntimeTaken(s) == |s.queue.accepted|)
    && (s.phase == Ended ==> s.bootstrapDone && s.runtimeDone)
    && (s.phase != Running ==> s.queue.closed)
  }

  lemma {:induction false} PartsGrow<T>(output: seq<Item<T>>, item: Item<T>)
    ensures BootstrapPart(output + [item]) == BootstrapPart(output) + (if item.FromBootstrap? then [item.chunk] else [])
    ensures RuntimePart(output + [item]) == RuntimePart(output) + (if item.FromRuntime? then [item.event] else [])
  {
    assert (output + [item])[..|output|] == output;
  }

  lemma {:induction false} NextKeeps<T>(s: State<T>, step: Step<T>, source: seq<T>)
    requires Inv(s, source) && Enabled(s, step)
    ensures Inv(Advance(s, step, source), source)
  {
    hide BootstrapPart, RuntimePart;
    match step
    case TakesBootstrap =>
      if s.taken < |source| {
        PartsGrow(s.output, FromBootstrap(source[s.taken]));
      }
    case TakesRuntime =>
      if RuntimeResult(s).value.Value? {
        PartsGrow(s.output, FromRuntime(RuntimeResult(s).value.value));
      }
    case _ =>
  }

  ghost predicate IsRun<T(!new)>(s: State<T>, steps: seq<Step<T>>, source: seq<T>, t: State<T>)
    decreases steps
  {
    if steps == [] then s == t
    else Enabled(s, steps[0]) && IsRun(Advance(s, steps[0], source), steps[1..], source, t)
  }

  lemma {:induction false} RunKeeps<T(!new)>(s: State<T>, steps: seq<Step<T>>, source: seq<T>, t: State<T>)
    requires Inv(s, source) && IsRun(s, steps, source, t)
    ensures Inv(t, source)
    decreases steps
  {
    hide Inv, Advance, Enabled;
    if steps != [] {
      NextKeeps(s, steps[0], source);
      RunKeeps(Advance(s, steps[0], source), steps[1..], source, t);
    }
  }

  /** A merge that ends normally has handed on the whole bootstrap sequence and every
      value pushed before the close, each in its order, whichever read won each race. */
  lemma {:induction false} MergeIsComplete<T(!new)>(steps: seq<Step<T>>, source: seq<T>, t: State<T>)
    requires IsRun(Initial<T>(), steps, source, t)
    ensures t.phase == Ended ==> BootstrapPart(t.output) == source && RuntimePart(t.output) == t.queue.accepted
    ensures BootstrapPart(t.output) <= source && RuntimePart(t.output) <= t.queue.accepted
  {
    RunKeeps(Initial<T>(), steps, source, t);
  }

  /** Whether it ends or its consumer leaves, the merge closes the queue: what the
      producer pushes after that is dropped. */
  lemma {:induction false} LeavingClosesQueue<T(!new)>(steps: seq<Step<T>>, source: seq<T>, t: State<T>, value: T)
    requires IsRun(Initial<T>(), steps, source, t) && t.phase != Running
    ensures t.queue.closed && Advance(t, Pushes(value), source) == t
  {
    RunKeeps(Initial<T>(), steps, source, t);
  }

  lemma {:induction false} PartsAreAll<T>(output: seq<Item<T>>)
    ensures |BootstrapPart(output)| + |RuntimePart(output)| == |output|
  {
    if output != [] {
      PartsAreAll(output[..|output| - 1]);
    }
  }

  /** The merge is never stuck: it can end, or it can take a read, or a source it waits
      for has yet to answer. The runtime is waited for only before the close. */
  lemma {:induction false} MergeProceeds<T(!new)>(steps: seq<Step<T>>, source: seq<T>, t: State<T>)
    requires IsRun(Initial<T>(), steps, source, t) && t.phase == Running
    ensures || Enabled(t, Finishes) || Enabled(t, TakesBootstrap) || Enabled(t, TakesRuntime)
            || t.bootstrapNext == Outstanding
    ensures t.bootstrapDone ==> Enabled(t, Finishes) || Enabled(t, TakesRuntime)
  {
    RunKeeps(Initial<T>(), steps, source, t);
  }

  predicate OfLoop<T>(step: Step<T>) {
    step.TakesBootstrap? || step.TakesRuntime? || step.Finishes?
  }

  function LoopSteps<T>(steps: seq<Step<T>>): nat {
    if steps == [] then 0 else (if OfLoop(steps[0]) then 1 else 0) + LoopSteps(steps[1..])
  }

  // The values not yet handed on, one end for each source that has not ended, and the
  // end of the loop.
  function StepsLeft<T>(s: State<T>, source: seq<T>): int {
    if s.phase != Running then 0
    else
      |source| - s.taken + |s.queue.accepted| - RuntimeTaken(s)
      + (if s.bootstrapDone then 0 else 1) + (if s.runtimeDone then 0 else 1) + 1
  }

  lemma {:induction false} OneStepLess<T(!new)>(s: State<T>, step: Step<T>, source: seq<T>)
    requires Inv(s, source) && s.queue.closed && Enabled(s, step)
    ensures var t := Advance(s, step, source);
            && t.queue.closed && StepsLeft(t, source) >= 0
            && StepsLeft(t, source) + (if OfLoop(step) then 1 else 0) <= StepsLeft(s, source)
            && (t.phase != Abandoned ==> StepsLeft(t, source) + (if OfLoop(step) then 1 else 0) == StepsLeft(s, source))
  {
    hide BootstrapPart, RuntimePart;
  }

  lemma {:induction false} StepsAreCounted<T(!new)>(s: State<T>, steps: seq<Step<T>>, source: seq<T>, t: State<T>)
    requires Inv(s, source) && s.queue.closed && IsRun(s, steps, source, t)
    ensures LoopSteps(steps) + StepsLeft(t, source) <= StepsLeft(s, source)
    ensures t.phase != Abandoned ==> LoopSteps(steps) + StepsLeft(t, source) == StepsLeft(s, source)
    decreases steps
  {
    hide Inv, Advance, Enabled, StepsLeft;
    if steps != [] {
      var next := Advance(s, steps[0], source);
      NextKeeps(s, steps[0], source);
      OneStepLess(s, steps[0], source);
      StepsAreCounted(next, steps[1..], source, t);
      if next.phase == Abandoned {
        AbandonedStays(next, steps[1..], source, t);
      }
    }
  }

  lemma {:induction false} AbandonedStays<T(!new)>(s: State<T>, steps: seq<Step<T>>, source: seq<T>, t: State<T>)
    requires s.phase == Abandoned && IsRun(s, steps, source, t)
    ensures t.phase == Abandoned
    decreases steps
  {
    if steps != [] {
      AbandonedStays(Advance(s, steps[0], source), steps[1..], source, t);
    }
  }

  /** Once the runtime queue is closed the loop has a bounded number of steps left,
      whatever happens around it: one for each value still to be handed on, one for each
      source that has yet to end, and its own end. A merge that ends takes all of them. */
  lemma {:induction false} ClosedMergeEnds<T(!new)>(
    steps: seq<Step<T>>, source: seq<T>, s: State<T>, more: seq<Step<T>>, t: State<T>
  )
    requires IsRun(Initial<T>(), steps, source, s) && s.queue.closed && IsRun(s, more, source, t)
    ensures LoopSteps(more) <= StepsLeft(s, source)
    ensures t.phase == Ended ==> LoopSteps(more) == StepsLeft(s, source)
  {
    hide LoopSteps;
    RunKeeps(Initial<T>(), steps, source, s);
    RunKeeps(s, more, source, t);
    StepsAreCounted(s, more, source, t);
  }

  // ----- The merge loop -----

  class StarterMerge<T(!new)> {
    const runtimeEvents: StarterAsyncQueue<T>
    const source: seq<T>
    var bootstrapNext: Slot
    var taken: nat
    // The number of the outstanding runtime read, while there is one.
    var runtimeNext: Option<nat>
    var bootstrapDone: bool
    var runtimeDone: bool
    var output: seq<Item<T>>
    var phase: Phase

    ghost predicate Valid()
      reads this, runtimeEvents
    {
      && runtimeEvents.Valid()
      && (runtimeNext.Some? ==> runtimeEvents.asked > 0 && runtimeNext.value == runtimeEvents.asked - 1)
    }

    ghost function Model(): State<T>
      reads this, runtimeEvents
    {
      State(runtimeEvents.Model(), output, bootstrapNext, taken, runtimeNext.Some?, bootstrapDone, runtimeDone, phase)
    }

    constructor (runtimeEvents: StarterAsyncQueue<T>, source: seq<T>)
      requires runtimeEvents.Valid() && runtimeEvents.Model() == Queue([], 0, false)
      modifies runtimeEvents
      ensures this.runtimeEvents == runtimeEvents && this.source == source
      ensures Valid() && Model() == Initial()
    {
      this.runtimeEvents, this.source := runtimeEvents, source;
      bootstrapNext, taken, bootstrapDone, runtimeDone, output, phase := Outstanding, 0, false, false, [], Running;
      runtimeNext := None;
      new;
      var k, result := runtimeEvents.Next();
      runtimeNext := Some(k);
    }

    // The bootstrap read won the race.
    method TakeBootstrap()
      requires Valid() && Enabled(Model(), TakesBootstrap)
      modifies this, runtimeEvents
      ensures Valid() && Model() == Advance(old(Model()), TakesBootstrap, source)
    {
      if taken >= |source| {
        bootstrapDone := true;
        bootstrapNext := Absent;
        runtimeEvents.Close();
        return;
      }
      var chunk := source[taken];
      taken := taken + 1;
      bootstrapNext := Outstanding;
      output := output + [FromBootstrap(chunk)];
    }

    // The runtime read won the race.
    method TakeRuntime()
      requires Valid() && Enabled(Model(), TakesRuntime)
      modifies this, runtimeEvents
      ensures Valid() && Model() == Advance(old(Model()), TakesRuntime, source)
    {
      assert Served(runtimeEvents.results, runtimeEvents.Model(), runtimeNext.value);
      var result := runtimeEvents.results[runtimeNext.value];
      if result.End? {
        runtimeDone := true;
        runtimeNext := None;
        return;
      }
      var k, next := runtimeEvents.Next();
      runtimeNext := Some(k);
      output := output + [FromRuntime(result.value)];
    }

    // The `finally` clause, after the loop or when the consumer leaves.
    method Finish(normally: bool)
      requires Valid() && Enabled(Model(), if normally then Finishes else Leaves)
      modifies this, runtimeEvents
      ensures Valid() && Model() == Advance(old(Model()), if normally then Finishes else Leaves, source)
    {
      runtimeEvents.Close();
      phase := if normally then Ended else Abandoned;
    }
  }
}
