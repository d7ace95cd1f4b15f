/**
 What a run record says, told from the history of the calls about it: its status,
 whether it is active, and its size.
 */
module RunHistory {

  import opened Options
  import opened RetentionSweep

  // The events that say how a run is doing.
  const MEANING: map<string, Status> := map[
    "run.created" := Created,
    "run.started" := Started,
    "run.completed" := Succeeded,
    "run.failed" := Failed,
    "run.cancelled" := Cancelled]

  lemma NamesMean(name: string, status: Status)
    ensures StatusFromEventName(name, status) == if name in MEANING then MEANING[name] else status
  {
  }

  // ----- Status -----

  ghost predicate Counted(runs: seq<Run>, key: Key, id: string) {
    Lookup(runs, key).Some? && id in Lookup(runs, key).value.events
  }

  // The status that a step gives a run: a new event that means one, or the result of an
  // execution that is written back.
  ghost function StatusGiven(s: State, step: Step, key: Key): Option<Status> {
    match step
    case Whole(AppendEvent(k, event, _)) =>
      if k == key && event.name in MEANING && !Counted(s.runs, key, event.id) then Some(MEANING[event.name]) else None
    case WriteResult(i, status, _, _) =>
      if Waits(s, i) && KeyOf(s.ingests[i].read) == key then Some(status) else None
    case _ => None
  }

  predicate IsSweep(step: Step) {
    step.Whole? && step.call.SweepRetention?
  }

  ghost predicate HasStatus(s: State, key: Key, status: Status) {
    var r := Lookup(s.runs, key);
    r.Some? && r.value.status == status && (r.value.active <==> !Terminal(status))
  }

  lemma {:induction false} AppendGives(s: State, key: Key, event: Event, now: int)
    requires Inv(s.runs)
    ensures var r := Lookup(Next(s, Whole(AppendEvent(key, event, now))).runs, key);
            var before := Stored(s.runs, key, now);
            if Counted(s.runs, key, event.id) then r == Some(before)
            else
              && r.Some? && r.value.byteSize == before.byteSize + event.bytes && r.value.updatedAt == event.occurredAt
              && r.value.pinned == before.pinned && r.value.events == before.events + {event.id}
              && r.value.status == (if event.name in MEANING then MEANING[event.name] else before.status)
              && (r.value.active <==> !Terminal(r.value.status))
  {
    hide Find, Put, Inv, StatusFromEventName, MEANING;
    StoredIs(s.runs, key, now);
    NewHasNoEvents(s.runs, key, now);
    NamesMean(event.name, Stored(s.runs, key, now).status);
    LookupPut(s.runs, UpdateRunForEvent(Stored(s.runs, key, now), event), key);
  }

  lemma NewHasNoEvents(runs: seq<Run>, key: Key, now: int)
    ensures Lookup(runs, key).None? ==> Stored(runs, key, now) == CreateInitialRun(key, now)
    ensures Lookup(runs, key).Some? ==> Lookup(runs, key) == Some(Stored(runs, key, now))
  {
  }

  lemma {:induction false} WriteGives(s: State, step: Step, key: Key)
    requires Inv(s.runs) && step.WriteResult? && Waits(s, step.ingest) && KeyOf(s.ingests[step.ingest].read) == key
    ensures var r := Lookup(Next(s, step).runs, key);
            var read := s.ingests[step.ingest].read;
            && r.Some? && r.value.status == step.status && (r.value.active <==> !Terminal(step.status))
            && r.value.byteSize == read.byteSize + step.bytes && r.value.pinned == read.pinned
            && r.value.updatedAt == step.updatedAt
  {
    hide Find, Put, Inv;
    var r := WithResult(s.ingests[step.ingest].read, step.status, step.updatedAt, step.bytes);
    match Find(s.runs, KeyOf(r))
    case Some(k) => LookupPut(s.runs, r.(events := s.runs[k].events), key);
    case None => LookupPut(s.runs, r.(events := {}), key);
  }

  // A step that gives a status gives it.
  lemma {:induction false} StepGives(s: State, step: Step, key: Key)
    requires Inv(s.runs) && StatusGiven(s, step, key).Some?
    ensures HasStatus(Next(s, step), key, StatusGiven(s, step, key).value)
  {
    hide Next, Inv, Lookup, KeyOf, MEANING, Stored;
    match step
    case Whole(AppendEvent(k, event, now)) => AppendGives(s, k, event, now);
    case WriteResult(_, _, _, _) => WriteGives(s, step, key);
  }

  // Any other call leaves the status of the run alone, and a sweep takes it only when
  // it has ended.
  lemma {:induction false} CallLeaves(s: State, call: Call, key: Key, status: Status)
    requires Inv(s.runs) && HasStatus(s, key, status) && StatusGiven(s, Whole(call), key).None?
    requires call.SweepRetention? ==> !Terminal(status)
    ensures HasStatus(Next(s, Whole(call)), key, status)
  {
    hide Sweep, SweepOf, Candidates, Sum, Find, Put, Without, Inv, StatusFromEventName, MEANING;
    var runs := s.runs;
    match call
    case SweepRetention(policy) =>
      var r := Lookup(runs, key).value;
      LookupIs(runs, key, r);
      SweepRemoves(runs, policy, r);
      WithoutKeeps(runs, SweepOf(runs, policy).deleted);
      LookupIs(Without(runs, SweepOf(runs, policy).deleted), key, r);
    case AppendEvent(k, event, now) =>
      StoredIs(runs, k, now);
      NamesMean(event.name, Stored(runs, k, now).status);
      LookupPut(runs, UpdateRunForEvent(Stored(runs, k, now), event), key);
    case SetPin(k, pinned, now) =>
      StoredIs(runs, k, now);
      LookupPut(runs, Stored(runs, k, now).(pinned := pinned, updatedAt := now), key);
    case MarkExported(k, now) =>
      StoredIs(runs, k, now);
      LookupPut(runs, Stored(runs, k, now).(updatedAt := now), key);
    case RecordExtras(k, bytes, now) =>
      StoredIs(runs, k, now);
      var r := Stored(runs, k, now);
      LookupPut(runs, r.(byteSize := r.byteSize + bytes, updatedAt := now), key);
  }

  lemma {:induction false} WriteLeaves(s: State, step: Step, key: Key)
    requires Inv(s.runs) && step.WriteResult?
    requires !(Waits(s, step.ingest) && KeyOf(s.ingests[step.ingest].read) == key)
    ensures Lookup(Next(s, step).runs, key) == Lookup(s.runs, key)
  {
    hide Find, Put, Inv;
    if Waits(s, step.ingest) {
      var r := WithResult(s.ingests[step.ingest].read, step.status, step.updatedAt, step.bytes);
      match Find(s.runs, KeyOf(r))
      case Some(k) => LookupPut(s.runs, r.(events := s.runs[k].events), key);
      case None => LookupPut(s.runs, r.(events := {}), key);
    }
  }

  lemma {:induction false} StepLeaves(s: State, step: Step, key: Key, status: Status)
    requires Inv(s.runs) && HasStatus(s, key, status) && StatusGiven(s, step, key).None?
    requires IsSweep(step) ==> !Terminal(status)
    ensures HasStatus(Next(s, step), key, status)
  {
    hide Lookup, Do, Replace, Inv, Stored, KeyOf, MEANING;
    match step
    case Whole(call) => CallLeaves(s, call, key, status);
    case ReadRun(_, _) =>
    case WriteResult(_, _, _, _) => WriteLeaves(s, step, key);
  }

  // No step from here on gives the run a status.
  ghost predicate NoneGiven(s: State, steps: seq<Step>, key: Key)
    decreases steps
  {
    steps != [] ==> StatusGiven(s, steps[0], key).None? && NoneGiven(Next(s, steps[0]), steps[1..], key)
  }

  lemma {:induction false} StatusStays(s: State, steps: seq<Step>, key: Key, status: Status)
    requires Inv(s.runs) && HasStatus(s, key, status) && NoneGiven(s, steps, key)
    requires Terminal(status) ==> forall i | 0 <= i < |steps| :: !IsSweep(steps[i])
    ensures HasStatus(RunSteps(s, steps), key, status)
    decreases steps
  {
    hide Inv, HasStatus, Next, StatusGiven;
    if steps != [] {
      StepLeaves(s, steps[0], key, status);
      NextKeeps(s, steps[0]);
      StatusStays(Next(s, steps[0]), steps[1..], key, status);
    }
  }

  /** After any history: a run has the status it was given last, by an event or a result,
      and is active exactly when that status is none of an ended run. Sweeps do not take
      it before it has ended. */
  lemma {:induction false} StatusIsTheLastGiven(history: seq<Step>, step: Step, more: seq<Step>, key: Key)
    requires var s := RunSteps(EMPTY, history);
             && StatusGiven(s, step, key).Some? && NoneGiven(Next(s, step), more, key)
             && (Terminal(StatusGiven(s, step, key).value) ==> forall i | 0 <= i < |more| :: !IsSweep(more[i]))
    ensures var s := RunSteps(EMPTY, history);
            HasStatus(RunSteps(Next(s, step), more), key, StatusGiven(s, step, key).value)
  {
    hide Inv, HasStatus, Next, StatusGiven, NoneGiven;
    var s := RunSteps(EMPTY, history);
    HistoryKeeps(history);
    StepGives(s, step, key);
    NextKeeps(s, step);
    StatusStays(Next(s, step), more, key, StatusGiven(s, step, key).value);
  }

  // ----- Size -----

  // The ids of the events about a run, and the bytes recorded for it: each event
  // counts once, extras every time.
  function EventIds(calls: seq<Call>, key: Key): set<string> {
    if calls == [] then {}
    else
      var last := calls[|calls| - 1];
      EventIds(calls[..|calls| - 1], key) + (if last.AppendEvent? && last.key == key then {last.event.id} else {})
  }

  function BytesOf(calls: seq<Call>, key: Key): nat {
    if calls == [] then 0
    else
      var front, last := calls[..|calls| - 1], calls[|calls| - 1];
      BytesOf(front, key) +
      match last
      case AppendEvent(k, event, _) => if k == key && event.id !in EventIds(front, key) then event.bytes else 0
      case RecordExtras(k, bytes, _) => if k == key then bytes else 0
      case _ => 0
  }


  function Calls(runs: seq<Run>, calls: seq<Call>): seq<Run> {
    if calls == [] then runs else Do(Calls(runs, calls[..|calls| - 1]), calls[|calls| - 1])
  }

  lemma {:induction false} CallsKeep(calls: seq<Call>)
    ensures Inv(Calls([], calls))
  {
    hide Do;
    if calls != [] {
      CallsKeep(calls[..|calls| - 1]);
      DoKeeps(Calls([], calls[..|calls| - 1]), calls[|calls| - 1]);
    }
  }

  // What the repository knows of a run: its events and its size.
  ghost predicate Knows(runs: seq<Run>, key: Key, ids: set<string>, bytes: nat) {
    match Lookup(runs, key)
    case None => ids == {} && bytes == 0
    case Some(r) => r.events == ids && r.byteSize == bytes
  }

  lemma {:induction false} CallCounts(runs: seq<Run>, call: Call, key: Key, ids: set<string>, bytes: nat)
    requires Inv(runs) && !call.SweepRetention? && Knows(runs, key, ids, bytes)
    ensures var own := call.AppendEvent? && call.key == key;
            Knows(Do(runs, call), key, if own then ids + {call.event.id} else ids,
                  bytes + (match call
                           case AppendEvent(k, event, _) => if k == key && event.id !in ids then event.bytes else 0
                           case RecordExtras(k, more, _) => if k == key then more else 0
                           case _ => 0))
  {
    hide Find, Put, Inv, StatusFromEventName;
    match call
    case AppendEvent(k, event, now) =>
      StoredIs(runs, k, now);
      NewHasNoEvents(runs, k, now);
      LookupPut(runs, UpdateRunForEvent(Stored(runs, k, now), event), key);
      if event.id in ids {
        assert ids + {event.id} == ids;
      }
    case SetPin(k, pinned, now) =>
      StoredIs(runs, k, now);
      LookupPut(runs, Stored(runs, k, now).(pinned := pinned, updatedAt := now), key);
    case MarkExported(k, now) =>
      StoredIs(runs, k, now);
      LookupPut(runs, Stored(runs, k, now).(updatedAt := now), key);
    case RecordExtras(k, more, now) =>
      StoredIs(runs, k, now);
      NewHasNoEvents(runs, k, now);
      var r := Stored(runs, k, now);
      LookupPut(runs, r.(byteSize := r.byteSize + more, updatedAt := now), key);
  }

  /** After any calls without a sweep the size of a run is the sum of what was recorded
      for it, however often an event was sent. */
  lemma {:induction false} SizeIsWhatWasRecorded(calls: seq<Call>, key: Key)
    requires forall call <- calls :: !call.SweepRetention?
    ensures Knows(Calls([], calls), key, EventIds(calls, key), BytesOf(calls, key))
  {
    hide Do, Knows, Inv;
    if calls == [] {
      NothingKnown(key);
    } else {
      var front, last := calls[..|calls| - 1], calls[|calls| - 1];
      assert last in calls && EventIds(front, key) + {} == EventIds(front, key);
      SizeIsWhatWasRecorded(front, key);
      CallsKeep(front);
      CallCounts(Calls([], front), last, key, EventIds(front, key), BytesOf(front, key));
    }
  }

  lemma NothingKnown(key: Key)
    ensures Knows([], key, {}, 0)
  {
  }

  // ----- What a call writes -----

  /** Pinning, exporting and recording change what they should of the run and its time,
      and nothing else; the first two need the run to be there. */
  lemma {:induction false} CallsTouchTheirRun(runs: seq<Run>, key: Key, pinned: bool, bytes: nat, now: int, other: Key)
    requires Inv(runs)
    ensures var before := Lookup(runs, key);
            && Lookup(Do(runs, SetPin(key, pinned, now)), key) ==
               (if before.None? then None else Some(before.value.(pinned := pinned, updatedAt := now)))
            && Lookup(Do(runs, MarkExported(key, now)), key) ==
               (if before.None? then None else Some(before.value.(updatedAt := now)))
            && Lookup(Do(runs, RecordExtras(key, bytes, now)), key) ==
               (if before.None? then Some(CreateInitialRun(key, now).(byteSize := bytes))
                else Some(before.value.(byteSize := before.value.byteSize + bytes, updatedAt := now)))
    ensures other != key ==>
              && Lookup(Do(runs, SetPin(key, pinned, now)), other) == Lookup(runs, other)
              && Lookup(Do(runs, MarkExported(key, now)), other) == Lookup(runs, other)
              && Lookup(Do(runs, RecordExtras(key, bytes, now)), other) == Lookup(runs, other)
  {
    hide Find, Put, Inv;
    var r := Stored(runs, key, now);
    StoredIs(runs, key, now);
    NewHasNoEvents(runs, key, now);
    LookupPut(runs, r.(pinned := pinned, updatedAt := now), key);
    LookupPut(runs, r.(pinned := pinned, updatedAt := now), other);
    LookupPut(runs, r.(updatedAt := now), key);
    LookupPut(runs, r.(updatedAt := now), other);
    LookupPut(runs, r.(byteSize := r.byteSize + bytes, updatedAt := now), key);
    LookupPut(runs, r.(byteSize := r.byteSize + bytes, updatedAt := now), other);
  }

  // ----- A sweep in numbers -----

  // Updated before the cutoff, if there is one.
  predicate BeforeCutoff(r: Run, policy: Policy) {
    match policy.olderThan
    case None => false
    case Some(cutoff) => r.updatedAt < cutoff
  }

  // More than the workspace may hold, if there is a limit.
  predicate Exceeds(bytes: int, policy: Policy) {
    match policy.maxBytes
    case None => false
    case Some(limit) => bytes > limit
  }

  lemma LimitsAre(r: Run, bytes: int, policy: Policy)
    ensures OldEnough(r, policy) == BeforeCutoff(r, policy) && OverBytes(bytes, policy) == Exceeds(bytes, policy)
  {
  }

  /** After any history, a sweep takes a run of its workspace only if it is neither pinned
      nor active, and was updated before the cutoff or met while the runs not yet taken
      held more than the limit; and it leaves a run that is neither pinned nor active only
      if it is not before the cutoff and what is left is within the limit. */
  lemma {:induction false} SweepInNumbers(steps: seq<Step>, policy: Policy, r: Run)
    requires !policy.dryRun && r in RunSteps(EMPTY, steps).runs && r.workspaceId == policy.workspaceId
    ensures var runs := RunSteps(EMPTY, steps).runs;
            var after := Do(runs, SweepRetention(policy));
            var deleted := SweepOf(runs, policy).deleted;
            && (r !in after ==>
                  !r.pinned && !r.active
                  && exists k :: 0 <= k < |deleted| && deleted[k] == r
                                 && (BeforeCutoff(r, policy)
                                     || Exceeds(Sum(Of(runs, policy.workspaceId)) - Sum(deleted[..k]), policy)))
            && (r in after && !r.pinned && !r.active ==>
                  !BeforeCutoff(r, policy) && !Exceeds(Sum(Of(after, policy.workspaceId)), policy))
  {
    hide Sweep, Sum, Do, Without, Sort, Of, Inv, Taken, BeforeCutoff, Exceeds, OldEnough, OverBytes;
    var runs := RunSteps(EMPTY, steps).runs;
    HistoryKeeps(steps);
    SweepStep(runs, policy);
    SweepRemoves(runs, policy, r);
    CandidatesAre(runs, policy);
    if r in SweepOf(runs, policy).deleted {
      TakenInNumbers(runs, policy, r);
    } else if !r.pinned && !r.active {
      TotalIsWhatIsLeft(runs, policy);
      SparedInNumbers(runs, policy, r);
    }
  }

  lemma {:induction false} TakenInNumbers(runs: seq<Run>, policy: Policy, r: Run)
    requires r in SweepOf(runs, policy).deleted
    ensures var deleted := SweepOf(runs, policy).deleted;
            && !r.pinned && !r.active
            && exists k :: 0 <= k < |deleted| && deleted[k] == r
                           && (BeforeCutoff(r, policy)
                               || Exceeds(Sum(Of(runs, policy.workspaceId)) - Sum(deleted[..k]), policy))
  {
    hide Sweep, Sum, Sort, Of, OldEnough, OverBytes, BeforeCutoff, Exceeds;
    var candidates, all := Candidates(runs, policy), Of(runs, policy.workspaceId);
    SortSorts(all);
    SumPermutes(candidates, all);
    DeletionsAreJustified(candidates, policy, Sum(candidates));
    var deleted := SweepOf(runs, policy).deleted;
    var k :| 0 <= k < |deleted| && deleted[k] == r;
    LimitsAre(r, Sum(all) - Sum(deleted[..k]), policy);
  }

  lemma {:induction false} SparedInNumbers(runs: seq<Run>, policy: Policy, r: Run)
    requires r in Candidates(runs, policy) && r !in SweepOf(runs, policy).deleted && !r.pinned && !r.active
    ensures !BeforeCutoff(r, policy) && !Exceeds(SweepOf(runs, policy).totalBytes, policy)
  {
    hide Sweep, Sum, Sort, Of, OldEnough, OverBytes, BeforeCutoff, Exceeds;
    var candidates := Candidates(runs, policy);
    var k :| 0 <= k < |candidates| && candidates[k] == r;
    DeletedWereTaken(candidates, policy, Sum(candidates), r);
    assert !Taken(candidates, policy, Sum(candidates), k);
    LimitsAre(r, SweepOf(runs, policy).totalBytes, policy);
    if OverBytes(SweepOf(runs, policy).totalBytes, policy) {
      TallyOverMeansProtected(candidates, policy, Sum(candidates), k);
    }
  }

  // A run the sweep has a reason to take when it comes to it.
  predicate Reason(candidates: seq<Run>, policy: Policy, total: int, k: nat)
    requires k < |candidates|
  {
    BeforeCutoff(candidates[k], policy) || Exceeds(Sweep(candidates[..k], policy, total).totalBytes, policy)
  }

  /** What a sweep lists: of the runs it has a reason to take, those that are pinned, those
      that are active without a pin, and, as deleted, all others. */
  lemma {:induction false} SweepLists(candidates: seq<Run>, policy: Policy, total: int, r: Run)
    ensures var t := Sweep(candidates, policy, total);
            && (r in t.pinned <==> exists k :: 0 <= k < |candidates| && candidates[k] == r
                                              && Reason(candidates, policy, total, k) && r.pinned)
            && (r in t.active <==> exists k :: 0 <= k < |candidates| && candidates[k] == r
                                              && Reason(candidates, policy, total, k) && !r.pinned && r.active)
            && (r in t.deleted <==> exists k :: 0 <= k < |candidates| && candidates[k] == r
                                               && Reason(candidates, policy, total, k) && !r.pinned && !r.active)
  {
    hide Reason;
    if candidates != [] {
      var n := |candidates| - 1;
      var front, last := candidates[..n], candidates[n];
      SweepLists(front, policy, total, r);
      LastListed(candidates, policy, total, r);
      forall k | 0 <= k < n
        ensures candidates[k] == front[k] && Reason(candidates, policy, total, k) == Reason(front, policy, total, k)
      {
        ReasonEarly(candidates, policy, total, n, k);
      }
    }
  }

  lemma ReasonEarly(candidates: seq<Run>, policy: Policy, total: int, n: nat, k: nat)
    requires k < n <= |candidates|
    ensures Reason(candidates[..n], policy, total, k) == Reason(candidates, policy, total, k)
  {
    hide Sweep;
    assert candidates[..n][..k] == candidates[..k];
  }

  lemma {:induction false} LastListed(candidates: seq<Run>, policy: Policy, total: int, r: Run)
    requires candidates != []
    ensures var n := |candidates| - 1;
            var s, t := Sweep(candidates[..n], policy, total), Sweep(candidates, policy, total);
            var last := candidates[n] == r && Reason(candidates, policy, total, n);
            && (r in t.pinned <==> r in s.pinned || (last && r.pinned))
            && (r in t.active <==> r in s.active || (last && !r.pinned && r.active))
            && (r in t.deleted <==> r in s.deleted || (last && !r.pinned && !r.active))
  {
    hide OldEnough, OverBytes, BeforeCutoff, Exceeds;
    var n := |candidates| - 1;
    LimitsAre(candidates[n], Sweep(candidates[..n], policy, total).totalBytes, policy);
  }
}
