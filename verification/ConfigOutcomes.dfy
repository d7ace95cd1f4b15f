/**
 When a config transaction succeeds and when it is refused, told from the edits,
 the files and the verifier.
 */
module ConfigOutcomes {

  import opened Options
  import opened Strings
  import opened ConfigTransaction

  // ----- The files that the verifier sees -----

  // Files that hold the last edits; leftover temporary files are not spoken about.
  ghost predicate HoldLastEdits(files: map<Path, string>, before: map<Path, string>, plan: seq<FilePlan>) {
    forall path | Visible(path) :: At(files, path) == LastEffect(plan, path, At(before, path))
  }

  lemma {:induction false} WrittenHoldLastEdits<V>(d: Disk, plan: seq<FilePlan>, env: Env<V>)
    requires PlanVisible(plan) && WritePlan(d, plan, env).1
    ensures HoldLastEdits(WritePlan(d, plan, env).0.files, d.files, plan)
  {
    hide WritePlan, LastEffect, Visible, PlanVisible;
    forall path | Visible(path)
      ensures At(WritePlan(d, plan, env).0.files, path) == LastEffect(plan, path, At(d.files, path))
    {
      WritePlanEffect(d, plan, env, path);
    }
  }

  ghost predicate NoFaults<V>(env: Env<V>) {
    forall i: nat :: env.faults(i).Works?
  }

  lemma {:induction false} WritesWork<V>(d: Disk, plan: seq<FilePlan>, env: Env<V>)
    requires NoFaults(env)
    ensures WritePlan(d, plan, env).1
    decreases plan
  {
    if plan != [] {
      WriteWorks(d, plan[0], env);
      WritesWork(WriteFile(d, plan[0], env).0, plan[1..], env);
    }
  }

  lemma WriteWorks<V>(d: Disk, f: FilePlan, env: Env<V>)
    requires NoFaults(env)
    ensures WriteFile(d, f, env).1
  {
    assert env.faults(d.clock).Works? && env.faults(d.clock + 1).Works? && env.faults(d.clock + 2).Works?;
  }

  // ----- What each outcome says -----

  // The verifier's answer about some files that hold the last edits.
  ghost predicate VerifierSaid<V>(answer: Verdict, before: map<Path, string>, plan: seq<FilePlan>, env: Env<V>) {
    exists written: map<Path, string> :: HoldLastEdits(written, before, plan) && env.verify(written) == answer
  }

  lemma {:induction false} PlanOutcomes<V>(d: Disk, plan: seq<FilePlan>, env: Env<V>)
    requires PlanVisible(plan)
    ensures var (d1, outcome) := ApplyPlan(d, plan, env);
            && (outcome == Applied ==> env.verify(d1.files) == Accepted && HoldLastEdits(d1.files, d.files, plan))
            && (outcome == VerifyFailed ==> VerifierSaid(Refused, d.files, plan, env))
            && (outcome == WriteFailed ==> !NoFaults(env) || VerifierSaid(VerifierThrows, d.files, plan, env))
            && (outcome == RollbackThrew ==> !NoFaults(env))
  {
    hide WritePlan, TakeBackups, Rollback, HoldLastEdits, PlanVisible, NoFaults;
    var (d1, backups) := TakeBackups(d, plan, env);
    var (d2, written) := WritePlan(d1, plan, env);
    if written {
      WrittenHoldLastEdits(d1, plan, env);
    }
    if NoFaults(env) {
      WritesWork(d1, plan, env);
      RollbacksWork(d2, backups, env);
    }
  }

  lemma RollbacksWork<V>(d: Disk, backups: seq<Backup>, env: Env<V>)
    requires NoFaults(env)
    ensures Rollback(d, backups, env).1
  {
    RollbackWorks(d, backups, env);
  }

  /** A transaction that is applied left files the verifier accepts. One that reports a
      failed verification, or a failed write when no call failed, has written files with
      the last edits that the verifier refused, or threw on. */
  lemma {:induction false} OutcomesSayWhatHappened<V>(
    d: Disk, location: Location, expectedRevision: Option<string>, edits: seq<Edit<V>>, env: Env<V>
  )
    ensures var plan := PreviewTransaction(d, location, expectedRevision, edits, env).files;
            var (d1, outcome) := ApplyTransaction(d, location, expectedRevision, edits, env);
            && (outcome == Applied ==> env.verify(d1.files) == Accepted && HoldLastEdits(d1.files, d.files, plan))
            && (outcome == VerifyFailed ==> VerifierSaid(Refused, d.files, plan, env))
            && (outcome == WriteFailed ==> !NoFaults(env) || VerifierSaid(VerifierThrows, d.files, plan, env))
            && (outcome == RollbackThrew ==> !NoFaults(env))
  {
    hide ApplyPlan, PlanEdits, ReadDigests, VerifierSaid, NoFaults, HoldLastEdits;
    var preview := PreviewTransaction(d, location, expectedRevision, edits, env);
    if preview.failures == [] {
      PlanCarriesEdits(d.(clock := d.clock + |location.files|), location.configDir, edits, env);
      PlanOutcomes(preview.disk, preview.files, env);
    }
  }

  // ----- Without faults -----

  lemma {:induction false} PlanWithoutFaults<V>(d: Disk, plan: seq<FilePlan>, env: Env<V>)
    returns (written: map<Path, string>)
    requires PlanVisible(plan) && NoFaults(env)
    ensures HoldLastEdits(written, d.files, plan)
    ensures ApplyPlan(d, plan, env).1 ==
            match env.verify(written)
            case Accepted => Applied
            case Refused => VerifyFailed
            case VerifierThrows => WriteFailed
    ensures ApplyPlan(d, plan, env).1 == Applied ==> ApplyPlan(d, plan, env).0.files == written
  {
    hide WritePlan, TakeBackups, Rollback, HoldLastEdits, PlanVisible, NoFaults;
    var (d1, backups) := TakeBackups(d, plan, env);
    var (d2, ok) := WritePlan(d1, plan, env);
    WritesWork(d1, plan, env);
    WrittenHoldLastEdits(d1, plan, env);
    RollbacksWork(d2, backups, env);
    written := d2.files;
  }

  // An edit that names a file and says what to do with it.
  predicate ValidEdit<V>(e: Edit<V>) {
    && (e.concern == Framework || e.concern == Hooks || (e.key.Some? && ValidKey(Trim(e.key.value))))
    && (e.action == SetFile ==> e.value.Some?)
    && (e.action == DeleteFile ==> e.concern != Framework)
  }

  predicate ValidKey(key: string) {
    key != "" && key != "." && key != ".." && '/' !in key && '\\' !in key
  }

  function KeyOf<V>(e: Edit<V>): string
    requires ValidEdit(e)
  {
    if e.concern == Framework then "framework" else if e.concern == Hooks then "hooks" else Trim(e.key.value)
  }

  // The file of the edit has the content that the edit expects, if it says which.
  ghost predicate Matches<V>(configDir: Path, e: Edit<V>, files: map<Path, string>, env: Env<V>)
    requires ValidEdit(e)
  {
    var path := FilePath(configDir, e.concern, KeyOf(e));
    e.expected.Some? ==> path in files && e.expected.value == env.digest(files[path])
  }

  // An edit that can be carried out on these files.
  ghost predicate Plannable<V>(configDir: Path, e: Edit<V>, files: map<Path, string>, env: Env<V>) {
    && ValidEdit(e) && Matches(configDir, e, files, env)
    && (e.action == SetFile ==> env.serialize(e.concern, KeyOf(e), e.value.value).Some?)
  }

  lemma {:induction false} ValidEditsAreNormal<V>(e: Edit<V>)
    ensures NormalizeEdit(e) == if ValidEdit(e) then Some(KeyOf(e)) else None
  {
    hide Trim;
  }

  lemma {:induction false} PlanEditExactly<V>(d: Disk, configDir: Path, e: Edit<V>, env: Env<V>)
    requires NoFaults(env)
    ensures PlanEdit(d, configDir, e, env).Planned? <==> Plannable(configDir, e, d.files, env)
    ensures PlanEdit(d, configDir, e, env).Refusal? ==>
              PlanEdit(d, configDir, e, env).code ==
              if ValidEdit(e) && !Matches(configDir, e, d.files, env) then ConfigConflict else InvalidEdit
  {
    hide NormalizeEdit, FilePath, KeyOf, Trim;
    ValidEditsAreNormal(e);
    assert env.faults(d.clock).Works?;
  }

  lemma {:induction false} PlanEditsExactly<V>(d: Disk, configDir: Path, edits: seq<Edit<V>>, env: Env<V>)
    requires NoFaults(env)
    ensures PlanEdits(d, configDir, edits, env).failures == [] <==>
            forall e <- edits :: Plannable(configDir, e, d.files, env)
    decreases edits
  {
    hide PlanEdit, Plannable, NoFaults, AfterEdit;
    if edits != [] {
      PlanEditExactly(d, configDir, edits[0], env);
      FilesStay(d, edits[0]);
      PlanEditsExactly(AfterEdit(d, edits[0]), configDir, edits[1..], env);
      assert edits == [edits[0]] + edits[1..];
    }
  }

  lemma FilesStay<V>(d: Disk, e: Edit<V>)
    ensures AfterEdit(d, e).files == d.files
  {
  }

  // What the files of the config root are revised by.
  function Digests<V>(files: map<Path, string>, paths: seq<Path>, env: Env<V>): seq<(Path, Option<string>)> {
    seq(|paths|, i requires 0 <= i < |paths| =>
      (paths[i], if paths[i] in files then Some(env.digest(files[paths[i]])) else None))
  }

  lemma {:induction false} DigestsAreRead<V>(d: Disk, paths: seq<Path>, env: Env<V>)
    requires NoFaults(env)
    ensures ReadDigests(d, paths, env) == Digests(d.files, paths, env)
    decreases paths
  {
    if paths != [] {
      assert env.faults(d.clock).Works?;
      DigestsAreRead(Tick(d), paths[1..], env);
      assert Digests(d.files, paths, env) == Digests(d.files, paths[..1], env) + Digests(d.files, paths[1..], env);
    }
  }

  // The caller saw the revision that the files have, if it says which it saw.
  predicate RevisionMatches<V>(
    files: map<Path, string>, location: Location, expectedRevision: Option<string>, env: Env<V>
  ) {
    expectedRevision.Some? ==> expectedRevision.value == env.revision(Digests(files, location.files, env))
  }

  lemma {:induction false} PreviewExactly<V>(
    d: Disk, location: Location, expectedRevision: Option<string>, edits: seq<Edit<V>>, env: Env<V>
  )
    requires NoFaults(env)
    ensures PreviewTransaction(d, location, expectedRevision, edits, env).failures == [] <==>
            && edits != [] && RevisionMatches(d.files, location, expectedRevision, env)
            && forall e <- edits :: Plannable(location.configDir, e, d.files, env)
  {
    hide ReadDigests, PlanEdits, Plannable, Digests, NoFaults;
    DigestsAreRead(d, location.files, env);
    PlanEditsExactly(d.(clock := d.clock + |location.files|), location.configDir, edits, env);
  }

  /** Without faults a transaction is applied if and only if there are edits, the revision
      is the one expected, each edit is valid, meets the content it expects and can be
      serialized, and the verifier accepts the files with the last edits; and then these
      are the files it leaves. */
  lemma {:induction false} AppliedExactly<V>(
    d: Disk, location: Location, expectedRevision: Option<string>, edits: seq<Edit<V>>, env: Env<V>
  ) returns (written: map<Path, string>)
    requires NoFaults(env)
    ensures var plan := PreviewTransaction(d, location, expectedRevision, edits, env).files;
            var (d1, outcome) := ApplyTransaction(d, location, expectedRevision, edits, env);
            var good := edits != [] && RevisionMatches(d.files, location, expectedRevision, env)
                        && forall e <- edits :: Plannable(location.configDir, e, d.files, env);
            && (good ==> HoldLastEdits(written, d.files, plan))
            && (outcome == Applied <==> good && env.verify(written) == Accepted)
            && (outcome == VerifyFailed <==> good && env.verify(written) == Refused)
            && (outcome == WriteFailed <==> good && env.verify(written) == VerifierThrows)
            && (outcome.PreviewFailed? <==> !good)
            && (outcome == Applied ==> d1.files == written)
  {
    hide ApplyPlan, PlanEdits, ReadDigests, NoFaults, HoldLastEdits, Plannable, RevisionMatches;
    PreviewExactly(d, location, expectedRevision, edits, env);
    var preview := PreviewTransaction(d, location, expectedRevision, edits, env);
    written := map[];
    if preview.failures == [] {
      PlanCarriesEdits(d.(clock := d.clock + |location.files|), location.configDir, edits, env);
      written := PlanWithoutFaults(preview.disk, preview.files, env);
    }
  }

  // ----- No file is torn -----

  // The content a file had, or what one of the first edits gives it.
  ghost predicate WholeContent(content: Option<string>, plan: seq<FilePlan>, path: Path, before: Option<string>) {
    exists k :: 0 <= k <= |plan| && content == LastEffect(plan[..k], path, before)
  }

  lemma {:induction false} FailedWriteLeavesFile<V>(d: Disk, f: FilePlan, env: Env<V>, path: Path)
    requires Visible(path) && Visible(f.path) && !WriteFile(d, f, env).1
    ensures At(WriteFile(d, f, env).0.files, path) == At(d.files, path)
  {
    hide Visible;
    if f.Put? {
      TempIsHidden(f.path, env.stamp(MakeDirectory(d, env).0.clock));
    }
  }

  /** Wherever the writes stop, every file is whole: it holds what it held before, or all
      of what one of the edits gives it. */
  lemma {:induction false} NoFileIsTorn<V>(d: Disk, plan: seq<FilePlan>, env: Env<V>, path: Path)
    requires Visible(path) && PlanVisible(plan)
    ensures WholeContent(At(WritePlan(d, plan, env).0.files, path), plan, path, At(d.files, path))
    decreases plan
  {
    hide WriteFile, Visible, LastEffect;
    if plan == [] {
      NoEffect(plan, path, At(d.files, path));
    } else {
      assert Visible(plan[0].path);
      var (d1, ok) := WriteFile(d, plan[0], env);
      if !ok {
        FailedWriteLeavesFile(d, plan[0], env, path);
        NoEffect(plan, path, At(d.files, path));
      } else {
        WriteFileEffect(d, plan[0], env, path);
        NoFileIsTorn(d1, plan[1..], env, path);
        var k :| 0 <= k <= |plan[1..]|
                 && At(WritePlan(d1, plan[1..], env).0.files, path) == LastEffect(plan[1..][..k], path, At(d1.files, path));
        OneEffectMore(plan, k, path, At(d.files, path));
      }
    }
  }

  lemma NoEffect(plan: seq<FilePlan>, path: Path, before: Option<string>)
    ensures plan[..0] == [] && LastEffect([], path, before) == before
    ensures WholeContent(before, plan, path, before)
  {
    assert LastEffect(plan[..0], path, before) == before;
  }

  lemma {:induction false} OneEffectMore(plan: seq<FilePlan>, k: nat, path: Path, before: Option<string>)
    requires plan != [] && k < |plan|
    ensures var own := if plan[0].Put? then Some(plan[0].content) else None;
            LastEffect(plan[..k + 1], path, before) ==
            LastEffect(plan[1..][..k], path, if plan[0].path == path then own else before)
  {
    assert plan[..k + 1][1..] == plan[1..][..k] && plan[..k + 1][0] == plan[0];
  }
}
