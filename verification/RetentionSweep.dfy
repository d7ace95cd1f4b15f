/**
 Run records of the observability repository, and the sweep that deletes old ones.
 */
module RetentionSweep {

  import opened Options

  datatype Status = Unknown | Created | Started | Succeeded | Failed | Cancelled

  predicate Terminal(s: Status) {
    s == Succeeded || s == Failed || s == Cancelled
  }

  // Times are only compared. `events` are the ids of the events counted so far.
  datatype Run = Run(
    workspaceId: string, runId: string, status: Status, updatedAt: int, byteSize: nat, pinned: bool, active: bool,
    events: set<string>)

  type Key = (string, string)

  function KeyOf(r: Run): Key {
    (r.workspaceId, r.runId)
  }

  // ----- The sweep -----

  datatype Policy = Policy(workspaceId: string, maxBytes: Option<int>, olderThan: Option<int>, dryRun: bool)

  datatype Tally = Tally(deleted: seq<Run>, pinned: seq<Run>, active: seq<Run>, reclaimedBytes: nat, totalBytes: int)

  function Sum(runs: seq<Run>): nat {
    if runs == [] then 0 else Sum(runs[..|runs| - 1]) + runs[|runs| - 1].byteSize
  }

  predicate OldEnough(r: Run, policy: Policy) {
    policy.olderThan.Some? && r.updatedAt < policy.olderThan.value
  }

  predicate OverBytes(total: int, policy: Policy) {
    policy.maxBytes.Some? && total > policy.maxBytes.value
  }

  predicate Eligible(r: Run) {
    !r.pinned && !r.active
  }

  function Visit(t: Tally, r: Run, policy: Policy): Tally {
    if !OverBytes(t.totalBytes, policy) && !OldEnough(r, policy) then t
    else if r.pinned then t.(pinned := t.pinned + [r])
    else if r.active then t.(active := t.active + [r])
    else
      t.(deleted := t.deleted + [r], reclaimedBytes := t.reclaimedBytes + r.byteSize, totalBytes := t.totalBytes - r.byteSize)
  }

  // The candidates one after the other, starting from their total size.
  function Sweep(candidates: seq<Run>, policy: Policy, total: int): Tally {
    if candidates == [] then Tally([], [], [], 0, total)
    else Visit(Sweep(candidates[..|candidates| - 1], policy, total), candidates[|candidates| - 1], policy)
  }

  predicate Sorted(runs: seq<Run>) {
    forall i, j | 0 <= i < j < |runs| :: runs[i].updatedAt <= runs[j].updatedAt
  }

  // What is left of the total after the first k deletions.
  function LeftAfter(t: Tally, k: nat, total: int): int
    requires k <= |t.deleted|
  {
    total - Sum(t.deleted[..k])
  }

  lemma {:induction false} SumGrows(runs: seq<Run>, r: Run)
    ensures Sum(runs + [r]) == Sum(runs) + r.byteSize
  {
    assert (runs + [r])[..|runs|] == runs;
  }

  /** Reclaimed bytes are the deleted sizes, and every deletion had its reason: the run
      was unpinned and not active, and too old or met while the total was over the limit. */
  lemma {:induction false} DeletionsAreJustified(candidates: seq<Run>, policy: Policy, total: int)
    ensures var t := Sweep(candidates, policy, total);
            && t.reclaimedBytes == Sum(t.deleted) && t.totalBytes == total - Sum(t.deleted)
            && (forall r <- t.deleted :: r in candidates && Eligible(r))
            && (forall k | 0 <= k < |t.deleted| ::
                  OldEnough(t.deleted[k], policy) || OverBytes(LeftAfter(t, k, total), policy))
  {
    hide Sum;
    if candidates == [] {
      assert Sum([]) == 0 by { EmptySum(); }
    } else {
      var front, r := candidates[..|candidates| - 1], candidates[|candidates| - 1];
      DeletionsAreJustified(front, policy, total);
      var s, t := Sweep(front, policy, total), Sweep(candidates, policy, total);
      SumGrows(s.deleted, r);
      if |t.deleted| > |s.deleted| {
        assert t.deleted[..|s.deleted|] == s.deleted;
        forall k | 0 <= k < |t.deleted|
          ensures OldEnough(t.deleted[k], policy) || OverBytes(LeftAfter(t, k, total), policy)
        {
          if k < |s.deleted| {
            assert t.deleted[..k] == s.deleted[..k];
            assert LeftAfter(t, k, total) == LeftAfter(s, k, total);
          }
        }
      }
    }
  }

  lemma EmptySum()
    ensures Sum([]) == 0
  {
  }

  lemma {:induction false} TotalShrinks(candidates: seq<Run>, policy: Policy, total: int, k: nat)
    requires k <= |candidates|
    ensures Sweep(candidates, policy, total).totalBytes <= Sweep(candidates[..k], policy, total).totalBytes
    ensures Sweep(candidates[..k], policy, total).deleted <= Sweep(candidates, policy, total).deleted
  {
    if k == |candidates| {
      assert candidates[..k] == candidates;
    } else {
      var front := candidates[..|candidates| - 1];
      TotalShrinks(front, policy, total, k);
      assert front[..k] == candidates[..k];
    }
  }

  // What the sweep decides at the k-th candidate.
  predicate Taken(candidates: seq<Run>, policy: Policy, total: int, k: nat)
    requires k < |candidates|
  {
    var t := Sweep(candidates[..k], policy, total);
    Eligible(candidates[k]) && (OverBytes(t.totalBytes, policy) || OldEnough(candidates[k], policy))
  }

  lemma {:induction false} TakenIsDeleted(candidates: seq<Run>, policy: Policy, total: int, k: nat)
    requires k < |candidates|
    ensures Sweep(candidates[..k + 1], policy, total).deleted ==
            Sweep(candidates[..k], policy, total).deleted + (if Taken(candidates, policy, total, k) then [candidates[k]] else [])
  {
    assert candidates[..k + 1][..k] == candidates[..k];
  }

  lemma {:induction false} DeletedWereTaken(candidates: seq<Run>, policy: Policy, total: int, r: Run)
    ensures r in Sweep(candidates, policy, total).deleted <==>
            exists k :: 0 <= k < |candidates| && candidates[k] == r && Taken(candidates, policy, total, k)
  {
    hide Taken;
    if candidates != [] {
      hide Sweep;
      var n := |candidates| - 1;
      var front := candidates[..n];
      DeletedWereTaken(front, policy, total, r);
      TakenIsDeleted(candidates, policy, total, n);
      assert candidates[..n + 1] == candidates;
      forall k | 0 <= k < n
        ensures Taken(front, policy, total, k) == Taken(candidates, policy, total, k)
      {
        TakenEarly(candidates, policy, total, n, k);
      }
      if r in Sweep(front, policy, total).deleted {
        var k :| 0 <= k < n && front[k] == r && Taken(front, policy, total, k);
        assert candidates[k] == r && Taken(candidates, policy, total, k);
      }
      if k :| 0 <= k < |candidates| && candidates[k] == r && Taken(candidates, policy, total, k) && k < n {
        assert front[k] == r && Taken(front, policy, total, k);
      }
    }
  }

  lemma {:induction false} TakenEarly(candidates: seq<Run>, policy: Policy, total: int, n: nat, k: nat)
    requires k < n <= |candidates|
    ensures Taken(candidates[..n], policy, total, k) == Taken(candidates, policy, total, k)
  {
    assert candidates[..n][..k] == candidates[..k];
  }

  // If the tally ends over the limit, every candidate that is left is pinned or active.
  lemma {:induction false} TallyOverMeansProtected(candidates: seq<Run>, policy: Policy, total: int, k: nat)
    requires k < |candidates| && OverBytes(Sweep(candidates, policy, total).totalBytes, policy)
    ensures Eligible(candidates[k]) ==> candidates[k] in Sweep(candidates, policy, total).deleted
  {
    hide Sweep;
    TotalShrinks(candidates, policy, total, k);
    if Eligible(candidates[k]) {
      assert Taken(candidates, policy, total, k);
      DeletedWereTaken(candidates, policy, total, candidates[k]);
    }
  }

  /** Oldest first: once an unprotected run is spared, no younger one is deleted. */
  lemma {:induction false} OldestGoFirst(candidates: seq<Run>, policy: Policy, total: int, i: nat, j: nat)
    requires Sorted(candidates) && i < j < |candidates|
    requires Eligible(candidates[i]) && !Taken(candidates, policy, total, i)
    ensures !Taken(candidates, policy, total, j)
  {
    hide Sweep;
    TotalShrinks(candidates[..j], policy, total, i);
    assert candidates[..j][..i] == candidates[..i];
  }

  /** With no cutoff, no run is deleted that would not have been needed: before each
      deletion the total was over the limit. So a limit that holds deletes nothing. */
  lemma {:induction false} WithinLimitsNothingGoes(candidates: seq<Run>, policy: Policy, total: int)
    requires !OverBytes(total, policy) && forall r <- candidates :: !OldEnough(r, policy)
    ensures Sweep(candidates, policy, total) == Tally([], [], [], 0, total)
  {
    if candidates != [] {
      var front := candidates[..|candidates| - 1];
      assert forall r <- front :: r in candidates;
      WithinLimitsNothingGoes(front, policy, total);
    }
  }

  // ----- The candidates -----

  // `sort` is stable: the run goes behind those that are not later.
  function Insert(sorted: seq<Run>, r: Run): seq<Run> {
    if sorted == [] || sorted[|sorted| - 1].updatedAt <= r.updatedAt then sorted + [r]
    else Insert(sorted[..|sorted| - 1], r) + [sorted[|sorted| - 1]]
  }

  function Sort(runs: seq<Run>): seq<Run> {
    if runs == [] then [] else Insert(Sort(runs[..|runs| - 1]), runs[|runs| - 1])
  }

  lemma {:induction false} InsertKeepsAll(sorted: seq<Run>, r: Run)
    ensures multiset(Insert(sorted, r)) == multiset(sorted) + multiset{r}
  {
    if sorted != [] && sorted[|sorted| - 1].updatedAt > r.updatedAt {
      InsertKeepsAll(sorted[..|sorted| - 1], r);
      assert sorted == sorted[..|sorted| - 1] + [sorted[|sorted| - 1]];
    }
  }

  lemma {:induction false} InsertSorts(sorted: seq<Run>, r: Run)
    requires Sorted(sorted)
    ensures Sorted(Insert(sorted, r))
  {
    if sorted != [] && sorted[|sorted| - 1].updatedAt > r.updatedAt {
      var front, last := sorted[..|sorted| - 1], sorted[|sorted| - 1];
      InsertSorts(front, r);
      forall i | 0 <= i < |Insert(front, r)|
        ensures Insert(front, r)[i].updatedAt <= last.updatedAt
      {
        InsertOnly(front, r, i);
      }
    }
  }

  lemma {:induction false} InsertOnly(sorted: seq<Run>, r: Run, i: nat)
    requires i < |Insert(sorted, r)|
    ensures Insert(sorted, r)[i] in sorted || Insert(sorted, r)[i] == r
  {
    hide Insert;
    InsertKeepsAll(sorted, r);
    assert Insert(sorted, r)[i] in multiset(Insert(sorted, r));
  }

  lemma {:induction false} SortSorts(runs: seq<Run>)
    ensures Sorted(Sort(runs)) && multiset(Sort(runs)) == multiset(runs)
  {
    if runs != [] {
      SortSorts(runs[..|runs| - 1]);
      InsertSorts(Sort(runs[..|runs| - 1]), runs[|runs| - 1]);
      InsertKeepsAll(Sort(runs[..|runs| - 1]), runs[|runs| - 1]);
      assert runs == runs[..|runs| - 1] + [runs[|runs| - 1]];
    }
  }

  function Of(runs: seq<Run>, workspaceId: string): seq<Run> {
    if runs == [] then []
    else
      var last := runs[|runs| - 1];
      Of(runs[..|runs| - 1], workspaceId) + (if last.workspaceId == workspaceId then [last] else [])
  }

  lemma {:induction false} OfHas(runs: seq<Run>, workspaceId: string, r: Run)
    ensures r in Of(runs, workspaceId) <==> r in runs && r.workspaceId == workspaceId
  {
    if runs != [] {
      OfHas(runs[..|runs| - 1], workspaceId, r);
      assert runs == runs[..|runs| - 1] + [runs[|runs| - 1]];
    }
  }

  function Candidates(runs: seq<Run>, policy: Policy): seq<Run> {
    Sort(Of(runs, policy.workspaceId))
  }

  lemma {:induction false} CandidatesAre(runs: seq<Run>, policy: Policy)
    ensures Sorted(Candidates(runs, policy))
    ensures forall r :: r in Candidates(runs, policy) <==> r in runs && r.workspaceId == policy.workspaceId
  {
    var all := Of(runs, policy.workspaceId);
    SortSorts(all);
    forall r
      ensures r in Sort(all) <==> r in runs && r.workspaceId == policy.workspaceId
    {
      OfHas(runs, policy.workspaceId, r);
      assert r in Sort(all) <==> r in multiset(Sort(all));
      assert r in all <==> r in multiset(all);
    }
  }

  // ----- The repository -----

  // What a sweep decides about the runs.
  function SweepOf(runs: seq<Run>, policy: Policy): Tally {
    Sweep(Candidates(runs, policy), policy, Sum(Candidates(runs, policy)))
  }

  // The runs in the order in which they were first stored; one per key.
  ghost predicate Inv(runs: seq<Run>) {
    && (forall i, j | 0 <= i < j < |runs| :: KeyOf(runs[i]) != KeyOf(runs[j]))
    && (forall r <- runs :: r.active <==> !Terminal(r.status))
  }

  datatype Event = Event(id: string, name: string, occurredAt: int, bytes: nat)

  function StatusFromEventName(name: string, status: Status): Status {
    if name == "run.created" then Created
    else if name == "run.started" then Started
    else if name == "run.completed" then Succeeded
    else if name == "run.failed" then Failed
    else if name == "run.cancelled" then Cancelled
    else status
  }

  function CreateInitialRun(key: Key, now: int): Run {
    Run(key.0, key.1, Unknown, now, 0, false, true, {})
  }

  function UpdateRunForEvent(r: Run, e: Event): Run {
    var status := StatusFromEventName(e.name, r.status);
    r.(status := status, byteSize := r.byteSize + e.bytes, active := !Terminal(status), updatedAt := e.occurredAt,
       events := r.events + {e.id})
  }

  function Find(runs: seq<Run>, key: Key): (i: Option<nat>)
    ensures i.Some? ==> i.value < |runs| && KeyOf(runs[i.value]) == key
    ensures i.None? ==> forall r <- runs :: KeyOf(r) != key
  {
    if runs == [] then None
    else if KeyOf(runs[|runs| - 1]) == key then Some(|runs| - 1)
    else Find(runs[..|runs| - 1], key)
  }

  function Stored(runs: seq<Run>, key: Key, now: int): Run {
    match Find(runs, key)
    case Some(i) => runs[i]
    case None => CreateInitialRun(key, now)
  }

  function Put(runs: seq<Run>, r: Run): seq<Run> {
    match Find(runs, KeyOf(r))
    case Some(i) => runs[i := r]
    case None => runs + [r]
  }

  predicate Gone(gone: seq<Run>, r: Run) {
    exists g <- gone :: KeyOf(g) == KeyOf(r)
  }

  function Without(runs: seq<Run>, gone: seq<Run>): seq<Run> {
    if runs == [] then []
    else
      var last := runs[|runs| - 1];
      Without(runs[..|runs| - 1], gone) + (if Gone(gone, last) then [] else [last])
  }

  // What a run becomes with the result of an execution, told from what was read of it.
  function WithResult(read: Run, status: Status, updatedAt: int, bytes: nat): Run {
    read.(status := status, active := !Terminal(status), updatedAt := updatedAt, byteSize := read.byteSize + bytes)
  }

  // The run is written over what is stored; only the events stay those of the store.
  function Replace(runs: seq<Run>, r: Run): seq<Run> {
    match Find(runs, KeyOf(r))
    case Some(i) => Put(runs, r.(events := runs[i].events))
    case None => Put(runs, r.(events := {}))
  }

  // One call at a time has the store to itself.
  datatype Call =
    | AppendEvent(key: Key, event: Event, now: int)
    | SetPin(key: Key, pinned: bool, now: int)
    | MarkExported(key: Key, now: int)
    | RecordExtras(key: Key, bytes: nat, now: int)
    | SweepRetention(policy: Policy)

  function Do(runs: seq<Run>, call: Call): seq<Run> {
    match call
    case AppendEvent(key, event, now) =>
      var r := Stored(runs, key, now);
      if event.id in r.events then runs else Put(runs, UpdateRunForEvent(r, event))
    case SetPin(key, pinned, now) =>
      if Find(runs, key).None? then runs else Put(runs, Stored(runs, key, now).(pinned := pinned, updatedAt := now))
    case MarkExported(key, now) =>
      if Find(runs, key).None? then runs else Put(runs, Stored(runs, key, now).(updatedAt := now))
    case RecordExtras(key, bytes, now) =>
      var r := Stored(runs, key, now);
      Put(runs, r.(byteSize := r.byteSize + bytes, updatedAt := now))
    case SweepRetention(policy) =>
      if policy.dryRun then runs else Without(runs, SweepOf(runs, policy).deleted)
  }

  // Ingesting a result reads the run in one call and writes it back, merged with the
  // result, in a later one. In between, any other call may have the store.
  datatype Ingest = Ingest(read: Run, written: bool)

  datatype State = State(runs: seq<Run>, ingests: seq<Ingest>)

  const EMPTY := State([], [])

  datatype Step =
    | Whole(call: Call)
    | ReadRun(key: Key, now: int)
    | WriteResult(ingest: nat, status: Status, updatedAt: int, bytes: nat)

  predicate Waits(s: State, i: nat) {
    i < |s.ingests| && !s.ingests[i].written
  }

  function Next(s: State, step: Step): State {
    match step
    case Whole(call) => s.(runs := Do(s.runs, call))
    case ReadRun(key, now) => s.(ingests := s.ingests + [Ingest(Stored(s.runs, key, now), false)])
    case WriteResult(i, status, updatedAt, bytes) =>
      if Waits(s, i) then
        State(Replace(s.runs, WithResult(s.ingests[i].read, status, updatedAt, bytes)),
              s.ingests[i := s.ingests[i].(written := true)])
      else s
  }

  lemma PutKeeps(runs: seq<Run>, r: Run)
    requires Inv(runs) && (r.active <==> !Terminal(r.status))
    ensures Inv(Put(runs, r))
  {
  }

  lemma {:induction false} WithoutHas(runs: seq<Run>, gone: seq<Run>, r: Run)
    ensures r in Without(runs, gone) <==> r in runs && !Gone(gone, r)
  {
    if runs != [] {
      WithoutHas(runs[..|runs| - 1], gone, r);
      assert runs == runs[..|runs| - 1] + [runs[|runs| - 1]];
    }
  }

  lemma {:induction false} WithoutKeeps(runs: seq<Run>, gone: seq<Run>)
    requires Inv(runs)
    ensures Inv(Without(runs, gone))
  {
    if runs != [] {
      var front, last := runs[..|runs| - 1], runs[|runs| - 1];
      WithoutKeeps(front, gone);
      forall r | r in Without(front, gone)
        ensures KeyOf(r) != KeyOf(last)
      {
        WithoutHas(front, gone, r);
      }
    }
  }

  lemma {:induction false} DoKeeps(runs: seq<Run>, call: Call)
    requires Inv(runs)
    ensures Inv(Do(runs, call))
  {
    hide Sweep, Candidates, Sum, Find, Put, Without, KeyOf;
    match call
    case SweepRetention(policy) =>
      WithoutKeeps(runs, SweepOf(runs, policy).deleted);
    case AppendEvent(key, event, now) =>
      StoredFits(runs, key, now);
      PutKeeps(runs, UpdateRunForEvent(Stored(runs, key, now), event));
    case SetPin(key, pinned, now) =>
      StoredFits(runs, key, now);
      PutKeeps(runs, Stored(runs, key, now).(pinned := pinned, updatedAt := now));
    case MarkExported(key, now) =>
      StoredFits(runs, key, now);
      PutKeeps(runs, Stored(runs, key, now).(updatedAt := now));
    case RecordExtras(key, bytes, now) =>
      StoredFits(runs, key, now);
      var r := Stored(runs, key, now);
      PutKeeps(runs, r.(byteSize := r.byteSize + bytes, updatedAt := now));
  }

  /** Every step keeps active equivalent to a status that is not terminal. */
  lemma {:induction false} NextKeeps(s: State, step: Step)
    requires Inv(s.runs)
    ensures Inv(Next(s, step).runs)
  {
    hide Do, Find, Put, KeyOf, Inv;
    match step
    case Whole(call) => DoKeeps(s.runs, call);
    case ReadRun(_, _) =>
    case WriteResult(i, status, updatedAt, bytes) =>
      if Waits(s, i) {
        var r := WithResult(s.ingests[i].read, status, updatedAt, bytes);
        match Find(s.runs, KeyOf(r))
        case Some(k) => PutKeeps(s.runs, r.(events := s.runs[k].events));
        case None => PutKeeps(s.runs, r.(events := {}));
      }
  }

  lemma StoredFits(runs: seq<Run>, key: Key, now: int)
    requires Inv(runs)
    ensures var r := Stored(runs, key, now); r.active <==> !Terminal(r.status)
  {
  }

  function RunSteps(s: State, steps: seq<Step>): State
    decreases steps
  {
    if steps == [] then s else RunSteps(Next(s, steps[0]), steps[1..])
  }

  lemma {:induction false} RunKeeps(s: State, steps: seq<Step>)
    requires Inv(s.runs)
    ensures Inv(RunSteps(s, steps).runs)
    decreases steps
  {
    hide Inv, Next;
    if steps != [] {
      NextKeeps(s, steps[0]);
      RunKeeps(Next(s, steps[0]), steps[1..]);
    }
  }

  lemma {:induction false} HistoryKeeps(history: seq<Step>)
    ensures Inv(RunSteps(EMPTY, history).runs)
  {
    RunKeeps(EMPTY, history);
  }

  /** After any history, a sweep takes from its workspace only runs that have ended and
      are not pinned, leaves everything else as it is, and takes nothing on a dry run. */
  lemma {:induction false} SweepTakesOnlyFinished(steps: seq<Step>, policy: Policy, r: Run)
    requires r in RunSteps(EMPTY, steps).runs
    ensures var runs := RunSteps(EMPTY, steps).runs;
            var after := Do(runs, SweepRetention(policy));
            && (forall x <- after :: x in runs)
            && (r !in after ==> r.workspaceId == policy.workspaceId && !r.pinned && Terminal(r.status))
            && (r !in after <==> !policy.dryRun && r in SweepOf(runs, policy).deleted)
  {
    hide Sweep, Candidates, Sum, Do, Without;
    var runs := RunSteps(EMPTY, steps).runs;
    HistoryKeeps(steps);
    SweepRemoves(runs, policy, r);
    SweepStep(runs, policy);
    forall x
      ensures x in Without(runs, SweepOf(runs, policy).deleted) ==> x in runs
    {
      WithoutHas(runs, SweepOf(runs, policy).deleted, x);
    }
  }

  lemma {:induction false} SweepRemoves(runs: seq<Run>, policy: Policy, r: Run)
    requires Inv(runs) && r in runs
    ensures var deleted := SweepOf(runs, policy).deleted;
            && (r in Without(runs, deleted) <==> r !in deleted)
            && (r in deleted ==> r.workspaceId == policy.workspaceId && !r.pinned && Terminal(r.status))
  {
    hide Sweep, Candidates, Sum, Without;
    var candidates := Candidates(runs, policy);
    DeletionsAreJustified(candidates, policy, Sum(candidates));
    CandidatesAre(runs, policy);
    WithoutHas(runs, SweepOf(runs, policy).deleted, r);
    SameKeySameRun(runs, SweepOf(runs, policy).deleted, r);
  }

  lemma SweepStep(runs: seq<Run>, policy: Policy)
    ensures Do(runs, SweepRetention(policy)) == if policy.dryRun then runs else Without(runs, SweepOf(runs, policy).deleted)
  {
  }

  lemma {:induction false} SameKeySameRun(runs: seq<Run>, deleted: seq<Run>, r: Run)
    requires Inv(runs) && r in runs && forall g <- deleted :: g in runs
    ensures Gone(deleted, r) <==> r in deleted
  {
    if g :| g in deleted && KeyOf(g) == KeyOf(r) {
      var i, j :| 0 <= i < |runs| && 0 <= j < |runs| && runs[i] == g && runs[j] == r;
      assert i == j;
    }
  }

  lemma {:induction false} SweepIgnoresDryRun(candidates: seq<Run>, policy: Policy, dryRun: bool, total: int)
    ensures Sweep(candidates, policy.(dryRun := dryRun), total) == Sweep(candidates, policy, total)
  {
    if candidates != [] {
      SweepIgnoresDryRun(candidates[..|candidates| - 1], policy, dryRun, total);
    }
  }

  /** A dry run reports exactly what a real run removes. */
  lemma {:induction false} DryRunForetells(runs: seq<Run>, policy: Policy)
    ensures var dry := policy.(dryRun := true);
            && SweepOf(runs, dry) == SweepOf(runs, policy.(dryRun := false))
            && Do(runs, SweepRetention(policy.(dryRun := false))) == Without(runs, SweepOf(runs, dry).deleted)
            && Do(runs, SweepRetention(dry)) == runs
  {
    hide Sweep, Sum, Without;
    var candidates := Candidates(runs, policy);
    SweepIgnoresDryRun(candidates, policy, true, Sum(candidates));
    SweepIgnoresDryRun(candidates, policy, false, Sum(candidates));
  }

  // ----- What is left of a workspace -----

  lemma {:induction false} SumAppend(a: seq<Run>, b: seq<Run>)
    ensures Sum(a + b) == Sum(a) + Sum(b)
  {
    if b == [] {
      assert a + b == a;
    } else {
      SumAppend(a, b[..|b| - 1]);
      assert (a + b)[..|a + b| - 1] == a + b[..|b| - 1];
    }
  }

  lemma {:induction false} WithoutOne(front: seq<Run>, x: Run, before: seq<Run>, behind: seq<Run>)
    requires multiset(front + [x]) == multiset(before + [x] + behind)
    ensures multiset(front) == multiset(before + behind)
  {
    assert multiset(front) == multiset(front + [x]) - multiset{x};
    assert multiset(before + behind) == multiset(before + [x] + behind) - multiset{x};
  }

  lemma {:induction false} SumPermutes(a: seq<Run>, b: seq<Run>)
    requires multiset(a) == multiset(b)
    ensures Sum(a) == Sum(b)
  {
    hide Sum;
    if a == [] {
      assert |multiset(b)| == |b|;
    } else {
      var front, x := a[..|a| - 1], a[|a| - 1];
      assert a == front + [x];
      assert x in multiset(b);
      var j :| 0 <= j < |b| && b[j] == x;
      assert b == b[..j] + [x] + b[j + 1..];
      WithoutOne(front, x, b[..j], b[j + 1..]);
      SumPermutes(front, b[..j] + b[j + 1..]);
      SumGrows(front, x);
      SumGrows(b[..j], x);
      SumAppend(b[..j] + [x], b[j + 1..]);
      SumAppend(b[..j], b[j + 1..]);
    }
  }

  ghost predicate Distinct(runs: seq<Run>) {
    forall i, j | 0 <= i < j < |runs| :: runs[i] != runs[j]
  }

  lemma {:induction false} CountDistinct(runs: seq<Run>, r: Run)
    requires Distinct(runs)
    ensures multiset(runs)[r] == if r in runs then 1 else 0
  {
    if runs != [] {
      var front, last := runs[..|runs| - 1], runs[|runs| - 1];
      assert runs == front + [last];
      CountDistinct(front, r);
    }
  }

  lemma {:induction false} OfDistinct(runs: seq<Run>, workspaceId: string)
    requires Inv(runs)
    ensures Distinct(Of(runs, workspaceId))
  {
    if runs != [] {
      var front, last := runs[..|runs| - 1], runs[|runs| - 1];
      OfDistinct(front, workspaceId);
      OfHas(front, workspaceId, last);
    }
  }

  lemma {:induction false} DeletedAreAmong(candidates: seq<Run>, policy: Policy, total: int)
    ensures multiset(Sweep(candidates, policy, total).deleted) <= multiset(candidates)
  {
    if candidates != [] {
      var front, last := candidates[..|candidates| - 1], candidates[|candidates| - 1];
      DeletedAreAmong(front, policy, total);
      assert candidates == front + [last];
    }
  }

  // What was there is what is left and what was deleted.
  lemma {:induction false} SweepSplits(runs: seq<Run>, policy: Policy)
    requires Inv(runs)
    ensures var deleted := SweepOf(runs, policy).deleted;
            multiset(Of(runs, policy.workspaceId))
            == multiset(Of(Without(runs, deleted), policy.workspaceId) + deleted)
  {
    hide Sweep, SweepOf, Sort, Without, Inv, Distinct, Of;
    var w, deleted := policy.workspaceId, SweepOf(runs, policy).deleted;
    var all, left := Of(runs, w), Of(Without(runs, deleted), w);
    OfDistinct(runs, w);
    WithoutKeeps(runs, deleted);
    OfDistinct(Without(runs, deleted), w);
    DeletedAmongAll(runs, policy);
    forall r
      ensures multiset(all)[r] == multiset(left + deleted)[r]
    {
      CountDistinct(all, r);
      CountDistinct(left, r);
      OfHas(runs, w, r);
      OfHas(Without(runs, deleted), w, r);
      assert r in deleted <==> multiset(deleted)[r] > 0;
      assert multiset(deleted)[r] <= multiset(all)[r];
      if r in all {
        SweepRemoves(runs, policy, r);
      } else {
        WithoutHas(runs, deleted, r);
      }
    }
  }

  lemma {:induction false} DeletedAmongAll(runs: seq<Run>, policy: Policy)
    ensures multiset(SweepOf(runs, policy).deleted) <= multiset(Of(runs, policy.workspaceId))
  {
    hide Sweep, Sort, Of;
    SortSorts(Of(runs, policy.workspaceId));
    DeletedAreAmong(Candidates(runs, policy), policy, Sum(Candidates(runs, policy)));
  }

  // The tally's total is the size of what is left of the workspace.
  lemma {:induction false} TotalIsWhatIsLeft(runs: seq<Run>, policy: Policy)
    requires Inv(runs)
    ensures var t := SweepOf(runs, policy);
            t.totalBytes == Sum(Of(Without(runs, t.deleted), policy.workspaceId))
  {
    hide Sweep, Sort, Of, Without, Sum, Inv;
    var candidates, deleted := Candidates(runs, policy), SweepOf(runs, policy).deleted;
    var all, left := Of(runs, policy.workspaceId), Of(Without(runs, deleted), policy.workspaceId);
    SortSorts(all);
    SumPermutes(candidates, all);
    DeletionsAreJustified(candidates, policy, Sum(candidates));
    SweepSplits(runs, policy);
    SumPermutes(all, left + deleted);
    SumAppend(left, deleted);
  }

  /** After any history, if a workspace is over its limit even after a sweep, every run
      that it still has is pinned or active. */
  lemma {:induction false} StillOverMeansProtected(steps: seq<Step>, policy: Policy, r: Run)
    requires !policy.dryRun && r.workspaceId == policy.workspaceId
    requires var after := Do(RunSteps(EMPTY, steps).runs, SweepRetention(policy));
             r in after && OverBytes(Sum(Of(after, policy.workspaceId)), policy)
    ensures r.pinned || r.active
  {
    hide Sweep, Sum, Do, Without, Sort, Of, Inv;
    var runs := RunSteps(EMPTY, steps).runs;
    HistoryKeeps(steps);
    SweepStep(runs, policy);
    TotalIsWhatIsLeft(runs, policy);
    var t := SweepOf(runs, policy);
    WithoutHas(runs, t.deleted, r);
    SweepRemoves(runs, policy, r);
    CandidatesAre(runs, policy);
    var candidates := Candidates(runs, policy);
    var k :| 0 <= k < |candidates| && candidates[k] == r;
    TallyOverMeansProtected(candidates, policy, Sum(candidates), k);
  }

  // ----- Pins -----

  function Lookup(runs: seq<Run>, key: Key): Option<Run> {
    match Find(runs, key)
    case Some(i) => Some(runs[i])
    case None => None
  }

  lemma {:induction false} LookupIs(runs: seq<Run>, key: Key, r: Run)
    requires Inv(runs)
    ensures Lookup(runs, key) == Some(r) <==> r in runs && KeyOf(r) == key
  {
    if r in runs && KeyOf(r) == key {
      var i :| 0 <= i < |runs| && runs[i] == r;
      assert Find(runs, key).Some? && Find(runs, key).value == i;
    }
  }

  lemma {:induction false} LookupPut(runs: seq<Run>, r: Run, key: Key)
    requires Inv(runs) && (r.active <==> !Terminal(r.status))
    ensures Lookup(Put(runs, r), key) == if KeyOf(r) == key then Some(r) else Lookup(runs, key)
  {
    PutKeeps(runs, r);
    var after := Put(runs, r);
    if KeyOf(r) == key {
      assert after[if Find(runs, key).Some? then Find(runs, key).value else |runs|] == r;
      LookupIs(after, key, r);
    } else {
      match Lookup(runs, key)
      case Some(x) =>
        LookupIs(runs, key, x);
        var i :| 0 <= i < |runs| && runs[i] == x;
        assert after[i] == x;
        LookupIs(after, key, x);
      case None =>
        if Lookup(after, key).Some? {
          LookupIs(after, key, Lookup(after, key).value);
        }
    }
  }

  ghost predicate IsPinned(s: State, key: Key) {
    Lookup(s.runs, key).Some? && Lookup(s.runs, key).value.pinned
  }

  // A result is still to be written of this run, which was read unpinned.
  predicate ReadUnpinned(s: State, i: nat, key: Key) {
    Waits(s, i) && KeyOf(s.ingests[i].read) == key && !s.ingests[i].read.pinned
  }

  predicate WritesUnpinned(s: State, step: Step, key: Key) {
    step.WriteResult? && ReadUnpinned(s, step.ingest, key)
  }

  predicate Unpins(step: Step, key: Key) {
    step.Whole? && step.call.SetPin? && step.call.key == key && !step.call.pinned
  }

  lemma {:induction false} CallKeepsPin(s: State, call: Call, key: Key)
    requires Inv(s.runs) && IsPinned(s, key) && !Unpins(Whole(call), key)
    ensures IsPinned(Next(s, Whole(call)), key)
  {
    hide Sweep, SweepOf, Candidates, Sum, Find, Put, Without, Inv;
    var runs := s.runs;
    match call
    case SweepRetention(policy) =>
      var r := Lookup(runs, key).value;
      LookupIs(runs, key, r);
      SweepRemoves(runs, policy, r);
      WithoutKeeps(runs, SweepOf(runs, policy).deleted);
      LookupIs(Without(runs, SweepOf(runs, policy).deleted), key, r);
    case AppendEvent(k, event, now) =>
      StoredIs(runs, k, now);
      LookupPut(runs, UpdateRunForEvent(Stored(runs, k, now), event), key);
    case SetPin(k, pinned, now) =>
      StoredIs(runs, k, now);
      LookupPut(runs, Stored(runs, k, now).(pinned := pinned, updatedAt := now), key);
    case MarkExported(k, now) =>
      StoredIs(runs, k, now);
      LookupPut(runs, Stored(runs, k, now).(updatedAt := now), key);
    case RecordExtras(k, bytes, now) =>
      StoredIs(runs, k, now);
      var r := Stored(runs, k, now);
      LookupPut(runs, r.(byteSize := r.byteSize + bytes, updatedAt := now), key);
  }

  lemma StoredIs(runs: seq<Run>, key: Key, now: int)
    requires Inv(runs)
    ensures var r := Stored(runs, key, now);
            && KeyOf(r) == key && (r.active <==> !Terminal(r.status))
            && (Lookup(runs, key).Some? ==> Lookup(runs, key) == Some(r))
  {
  }

  // A result sets the pin to what was read.
  lemma {:induction false} WriteSetsPin(s: State, step: Step, key: Key)
    requires Inv(s.runs) && step.WriteResult? && Waits(s, step.ingest)
    ensures var read := s.ingests[step.ingest].read;
            IsPinned(Next(s, step), key) == if KeyOf(read) == key then read.pinned else IsPinned(s, key)
  {
    hide Find, Put, Inv;
    var r := WithResult(s.ingests[step.ingest].read, step.status, step.updatedAt, step.bytes);
    match Find(s.runs, KeyOf(r))
    case Some(k) => LookupPut(s.runs, r.(events := s.runs[k].events), key);
    case None => LookupPut(s.runs, r.(events := {}), key);
  }

  // One step loses a pin exactly when it writes back a run read without it.
  lemma {:induction false} StepKeepsPin(s: State, step: Step, key: Key)
    requires Inv(s.runs) && IsPinned(s, key) && !Unpins(step, key)
    ensures IsPinned(Next(s, step), key) <==> !WritesUnpinned(s, step, key)
  {
    hide Lookup, Do, Replace, Inv, Stored, KeyOf;
    match step
    case Whole(call) => CallKeepsPin(s, call, key);
    case ReadRun(_, _) =>
    case WriteResult(i, _, _, _) =>
      if Waits(s, i) {
        WriteSetsPin(s, step, key);
      }
  }

  // As long as the pin stands, nothing new is read without it.
  lemma {:induction false} ReadsSeePin(s: State, step: Step, key: Key, later: Step)
    requires Inv(s.runs) && IsPinned(s, key) && !WritesUnpinned(s, step, key)
    ensures WritesUnpinned(Next(s, step), later, key) <==> WritesUnpinned(s, later, key)
  {
    hide Lookup, Do, Replace, Inv, Stored, KeyOf;
    if step.ReadRun? {
      StoredIs(s.runs, step.key, step.now);
    }
  }

  // The run is there and pinned in every state from here on.
  ghost predicate PinStands(s: State, steps: seq<Step>, key: Key)
    decreases steps
  {
    IsPinned(s, key) && (steps != [] ==> PinStands(Next(s, steps[0]), steps[1..], key))
  }

  /** A pin that is not taken back stands for as long as no result is written of a run
      that was read before the pin was set, and no longer. */
  lemma {:induction false} PinStandsExactly(s: State, steps: seq<Step>, key: Key)
    requires Inv(s.runs) && IsPinned(s, key) && forall step <- steps :: !Unpins(step, key)
    ensures PinStands(s, steps, key) <==> forall step <- steps :: !WritesUnpinned(s, step, key)
    decreases steps
  {
    hide Inv, IsPinned, Next, WritesUnpinned, Unpins;
    if steps != [] {
      var first, rest := steps[0], steps[1..];
      assert steps == [first] + rest;
      StepKeepsPin(s, first, key);
      if !WritesUnpinned(s, first, key) {
        NextKeeps(s, first);
        PinStandsExactly(Next(s, first), rest, key);
        forall step | step in rest
          ensures WritesUnpinned(Next(s, first), step, key) <==> WritesUnpinned(s, step, key)
        {
          ReadsSeePin(s, first, key, step);
        }
      } else {
        NotPinnedNow(Next(s, first), rest, key);
      }
    }
  }

  lemma NotPinnedNow(s: State, steps: seq<Step>, key: Key)
    requires !IsPinned(s, key)
    ensures !PinStands(s, steps, key)
  {
  }

  /** After any history, the pin set by a call is safe from everything but being taken
      back, whatever follows, exactly when no result is still to be written of a run
      that was read unpinned. */
  lemma {:induction false} PinIsSafeExactly(history: seq<Step>, key: Key, now: int)
    requires Lookup(RunSteps(EMPTY, history).runs, key).Some?
    ensures var before := RunSteps(EMPTY, history);
            PinIsSafe(Next(before, Whole(SetPin(key, true, now))), key) <==>
            forall i: nat :: !ReadUnpinned(before, i, key)
  {
    hide Next, Inv, KeyOf, IsPinned, PinIsSafe, ReadUnpinned, Lookup;
    var before := RunSteps(EMPTY, history);
    var s := Next(before, Whole(SetPin(key, true, now)));
    HistoryKeeps(history);
    NextKeeps(before, Whole(SetPin(key, true, now)));
    PinnedByCall(before, key, now);
    SafeExactly(s, key);
    assert forall i: nat :: ReadUnpinned(before, i, key) <==> ReadUnpinned(s, i, key) by {
      SameReads(before, s, key);
    }
  }

  lemma SameReads(s: State, t: State, key: Key)
    requires s.ingests == t.ingests
    ensures forall i: nat :: ReadUnpinned(s, i, key) <==> ReadUnpinned(t, i, key)
  {
  }

  // Whatever follows, short of taking it back.
  ghost predicate PinIsSafe(s: State, key: Key) {
    forall steps: seq<Step> | (forall step <- steps :: !Unpins(step, key)) :: PinStands(s, steps, key)
  }

  lemma {:induction false} SafeExactly(s: State, key: Key)
    requires Inv(s.runs) && IsPinned(s, key)
    ensures PinIsSafe(s, key) <==> forall i: nat :: !ReadUnpinned(s, i, key)
  {
    hide PinStands, Inv, KeyOf, IsPinned, ReadUnpinned;
    if i: nat :| ReadUnpinned(s, i, key) {
      var write := WriteResult(i, Succeeded, 0, 0);
      assert WritesUnpinned(s, write, key) && write in [write];
      PinStandsExactly(s, [write], key);
    } else {
      forall steps: seq<Step> | (forall step <- steps :: !Unpins(step, key))
        ensures PinStands(s, steps, key)
      {
        PinStandsExactly(s, steps, key);
      }
    }
  }

  lemma {:induction false} PinnedByCall(s: State, key: Key, now: int)
    requires Inv(s.runs) && Lookup(s.runs, key).Some?
    ensures var after := Next(s, Whole(SetPin(key, true, now)));
            IsPinned(after, key) && after.ingests == s.ingests
  {
    hide Find, Put, Inv;
    StoredIs(s.runs, key, now);
    LookupPut(s.runs, Stored(s.runs, key, now).(pinned := true, updatedAt := now), key);
  }

  /** The shortest way to lose a pin: a run is read for its result, pinned, written back,
      and taken by the next sweep. */
  lemma {:induction false} PinIsLost(key: Key, bytes: nat, policy: Policy)
    requires policy.workspaceId == key.0 && policy.olderThan == Some(10) && !policy.dryRun
    ensures var pinned := RunSteps(EMPTY, [Whole(RecordExtras(key, 0, 1)), ReadRun(key, 1), Whole(SetPin(key, true, 2))]);
            var written := Next(pinned, WriteResult(0, Succeeded, 3, bytes));
            IsPinned(pinned, key) && Do(written.runs, SweepRetention(policy)) == []
  {
    hide Sweep, Sort, RunSteps, Do;
    ReadThenPinned(key);
    var a := CreateInitialRun(key, 1);
    var b, c := a.(pinned := true, updatedAt := 2), WithResult(a, Succeeded, 3, bytes);
    assert Replace([b], c) == [c];
    OneIsGone(c, policy);
  }

  lemma {:induction false} ReadThenPinned(key: Key)
    ensures var a := CreateInitialRun(key, 1);
            RunSteps(EMPTY, [Whole(RecordExtras(key, 0, 1)), ReadRun(key, 1), Whole(SetPin(key, true, 2))]) ==
            State([a.(pinned := true, updatedAt := 2)], [Ingest(a, false)])
  {
    hide Sweep, Sort;
    var a := CreateInitialRun(key, 1);
    var b, read := a.(pinned := true, updatedAt := 2), [Ingest(a, false)];
    var steps := [Whole(RecordExtras(key, 0, 1)), ReadRun(key, 1), Whole(SetPin(key, true, 2))];
    assert steps[1..] == [steps[1], steps[2]] && steps[1..][1..] == [steps[2]] && [steps[2]][1..] == [];
    assert Next(EMPTY, steps[0]) == State([a], []);
    assert Next(State([a], []), steps[1]) == State([a], read);
    assert Next(State([a], read), steps[2]) == State([b], read);
    assert RunSteps(State([a], read), [steps[2]]) == State([b], read);
  }

  lemma {:induction false} OneIsGone(c: Run, policy: Policy)
    requires c.workspaceId == policy.workspaceId && Eligible(c) && OldEnough(c, policy) && !policy.dryRun
    ensures Do([c], SweepRetention(policy)) == []
  {
    hide Sweep, Sum, Candidates, Without, Eligible, OldEnough;
    OneCandidate(c, policy);
    OneSwept(c, policy, Sum([c]));
    assert Without([c], [c]) == [] by { WithoutItself(c); }
  }

  lemma WithoutItself(c: Run)
    ensures Without([c], [c]) == []
  {
    assert [c][..0] == [] && c in [c];
  }

  lemma {:induction false} OneCandidate(c: Run, policy: Policy)
    requires c.workspaceId == policy.workspaceId
    ensures Candidates([c], policy) == [c]
  {
    hide Sort;
    assert Of([c], policy.workspaceId) == [c] by { assert [c][..0] == [] && Of([], policy.workspaceId) == []; }
    OneSorted(c);
  }

  lemma {:induction false} OneSorted(c: Run)
    ensures Sort([c]) == [c]
  {
    assert [c][..0] == [];
    assert Sort([]) == [] && Insert([], c) == [c];
  }

  lemma {:induction false} OneSwept(c: Run, policy: Policy, total: int)
    requires Eligible(c) && OldEnough(c, policy)
    ensures Sweep([c], policy, total).deleted == [c]
  {
    assert [c][..0] == [];
    assert Sweep([], policy, total) == Tally([], [], [], 0, total);
  }

  // ----- The loop -----

  class MemoryRepository {
    var states: seq<Run>

    constructor ()
      ensures states == []
    {
      states := [];
    }

    method StateOf(key: Key, now: int) returns (run: Run)
      ensures run == Stored(states, key, now)
    {
      var existing := Find(states, key);
      run := if existing.Some? then states[existing.value] else CreateInitialRun(key, now);
    }

    method AddEvent(key: Key, event: Event, now: int) returns (inserted: bool)
      modifies this
      ensures states == Do(old(states), AppendEvent(key, event, now))
      ensures inserted == (event.id !in Stored(old(states), key, now).events)
    {
      var run := StateOf(key, now);
      if event.id in run.events {
        return false;
      }
      states := Put(states, UpdateRunForEvent(run, event));
      inserted := true;
    }

    method Pin(key: Key, pinned: bool, now: int) returns (found: bool)
      modifies this
      ensures states == Do(old(states), SetPin(key, pinned, now)) && found == Find(old(states), key).Some?
    {
      found := Find(states, key).Some?;
      if found {
        var run := StateOf(key, now);
        states := Put(states, run.(pinned := pinned, updatedAt := now));
      }
    }

    // Writes back a run read before, with the result of its execution.
    method WriteBack(read: Run, status: Status, updatedAt: int, bytes: nat)
      modifies this
      ensures states == Replace(old(states), WithResult(read, status, updatedAt, bytes))
    {
      var r := read.(status := status, active := !Terminal(status), updatedAt := updatedAt,
                     byteSize := read.byteSize + bytes);
      var existing := Find(states, KeyOf(r));
      states := Put(states, r.(events := if existing.Some? then states[existing.value].events else {}));
    }

    method TotalBytes(candidates: seq<Run>) returns (total: nat)
      ensures total == Sum(candidates)
    {
      total := 0;
      assert candidates[..0] == [];
      for i := 0 to |candidates|
        invariant total == Sum(candidates[..i])
      {
        assert candidates[..i + 1] == candidates[..i] + [candidates[i]];
        SumGrows(candidates[..i], candidates[i]);
        total := total + candidates[i].byteSize;
      }
      assert candidates[..|candidates|] == candidates;
    }

    method Delete(r: Run)
      modifies this
      ensures states == Without(old(states), [r])
    {
      var kept: seq<Run> := [];
      assert states[..0] == [];
      for i := 0 to |states|
        invariant states == old(states) && kept == Without(states[..i], [r])
      {
        assert states[..i + 1][..i] == states[..i];
        GoneMore([], r, states[i]);
        assert [] + [r] == [r];
        if KeyOf(states[i]) != KeyOf(r) {
          kept := kept + [states[i]];
        }
      }
      assert states[..|states|] == states;
      states := kept;
    }

    method SweepRuns(policy: Policy) returns (t: Tally)
      modifies this
      ensures t == SweepOf(old(states), policy)
      ensures states == Do(old(states), SweepRetention(policy))
    {
      hide Candidates, Sum, Without;
      var candidates := Candidates(states, policy);
      var total := TotalBytes(candidates);
      t := Tally([], [], [], 0, total);
      assert candidates[..0] == [];
      NothingGone(states);
      var i := 0;
      while i < |candidates|
        invariant 0 <= i <= |candidates| && t == Sweep(candidates[..i], policy, total)
        invariant states == if policy.dryRun then old(states) else Without(old(states), t.deleted)
      {
        var r := candidates[i];
        assert candidates[..i + 1][..i] == candidates[..i];
        i := i + 1;
        var overBytes := policy.maxBytes.Some? && t.totalBytes > policy.maxBytes.value;
        var oldEnough := policy.olderThan.Some? && r.updatedAt < policy.olderThan.value;
        if !overBytes && !oldEnough {
          continue;
        }
        if r.pinned {
          t := t.(pinned := t.pinned + [r]);
          continue;
        }
        if r.active {
          t := t.(active := t.active + [r]);
          continue;
        }
        OneMoreGone(old(states), t.deleted, r);
        t := t.(deleted := t.deleted + [r], reclaimedBytes := t.reclaimedBytes + r.byteSize,
                totalBytes := t.totalBytes - r.byteSize);
        if !policy.dryRun {
          Delete(r);
        }
      }
      assert candidates[..|candidates|] == candidates;
    }
  }

  lemma {:induction false} NothingGone(runs: seq<Run>)
    ensures Without(runs, []) == runs
  {
    if runs != [] {
      NothingGone(runs[..|runs| - 1]);
      assert runs == runs[..|runs| - 1] + [runs[|runs| - 1]];
    }
  }

  lemma {:induction false} GoneMore(gone: seq<Run>, r: Run, x: Run)
    ensures Gone(gone + [r], x) <==> Gone(gone, x) || KeyOf(r) == KeyOf(x)
  {
    if g :| g in gone && KeyOf(g) == KeyOf(x) {
      assert g in gone + [r];
    }
    assert r in gone + [r];
  }

  lemma {:induction false} OneMoreGone(runs: seq<Run>, gone: seq<Run>, r: Run)
    ensures Without(Without(runs, gone), [r]) == Without(runs, gone + [r])
  {
    hide Gone;
    if runs != [] {
      var front, last := runs[..|runs| - 1], runs[|runs| - 1];
      OneMoreGone(front, gone, r);
      GoneMore(gone, r, last);
      GoneMore([], r, last);
      assert [] + [r] == [r];
      assert !Gone([], last) by { NoneGone(last); }
      if !Gone(gone, last) {
        var kept := Without(front, gone);
        assert (kept + [last])[..|kept|] == kept;
      } else {
        assert Without(runs, gone) == Without(front, gone);
        assert Without(runs, gone + [r]) == Without(front, gone + [r]);
      }
    }
  }

  lemma NoneGone(r: Run)
    ensures !Gone([], r)
  {
  }
}
