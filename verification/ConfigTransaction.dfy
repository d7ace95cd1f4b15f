/**
 The config file transaction: a plan from a list of edits, backups, writes
 through temporary files, verification, and rollback. Every call of the file
 system may fail, as a fault schedule says.
 */
module ConfigTransaction {

  import opened Options
  import opened Strings

  type Path = string

  // A call that fails may have left something else in the file it was writing.
  datatype Fault = Works | Fails(left: Option<string>)

  // `clock` counts the calls made so far.
  datatype Disk = Disk(files: map<Path, string>, clock: nat)

  datatype Concern = Framework | Hooks | Agent | Harness | Plugin

  datatype EditAction = SetFile | DeleteFile

  datatype Edit<V> = Edit(
    action: EditAction, concern: Concern, key: Option<string>, value: Option<V>, expected: Option<string>)

  datatype FailureCode = NoEdits | InvalidEdit | ConfigConflict

  datatype FilePlan = Delete(path: Path) | Put(path: Path, content: string)

  datatype Backup = Backup(path: Path, content: Option<string>)

  datatype Verdict = Accepted | Refused | VerifierThrows

  // What the runtime provides: the fault schedule, time stamps, the serializer
  // with its schema check, the digest, and the verification of the written files.
  datatype Env<!V> = Env(
    faults: nat -> Fault,
    stamp: nat -> string,
    serialize: (Concern, string, V) -> Option<string>,
    digest: string -> string,
    revision: seq<(Path, Option<string>)> -> string,
    verify: map<Path, string> -> Verdict)

  datatype Location = Location(configDir: Path, files: seq<Path>)

  datatype Outcome =
    | PreviewFailed(failures: seq<FailureCode>)
    | Applied
    | VerifyFailed
    | WriteFailed
    // The promise rejects: the rollback itself failed.
    | RollbackThrew

  // ----- File system calls -----

  function Tick(d: Disk): Disk {
    d.(clock := d.clock + 1)
  }

  function Read<V>(d: Disk, path: Path, env: Env<V>): Option<string> {
    if env.faults(d.clock).Works? && path in d.files then Some(d.files[path]) else None
  }

  // A call that only has to succeed, with what it does to the files.
  function Call<V>(d: Disk, after: map<Path, string>, env: Env<V>): (Disk, bool) {
    if env.faults(d.clock).Works? then (Disk(after, d.clock + 1), true) else (Tick(d), false)
  }

  function Remove<V>(d: Disk, path: Path, env: Env<V>): (Disk, bool) {
    Call(d, d.files - {path}, env)
  }

  function MakeDirectory<V>(d: Disk, env: Env<V>): (Disk, bool) {
    Call(d, d.files, env)
  }

  function Write<V>(d: Disk, path: Path, content: string, env: Env<V>): (Disk, bool) {
    match env.faults(d.clock)
    case Works => (Disk(d.files[path := content], d.clock + 1), true)
    case Fails(None) => (Tick(d), false)
    case Fails(Some(left)) => (Disk(d.files[path := left], d.clock + 1), false)
  }

  function Rename<V>(d: Disk, from: Path, to: Path, env: Env<V>): (Disk, bool) {
    if from in d.files then Call(d, (d.files - {from})[to := d.files[from]], env) else (Tick(d), false)
  }

  // ----- Planning -----

  function ConcernName(c: Concern): string {
    match c
    case Framework => "framework"
    case Hooks => "hooks"
    case Agent => "agent"
    case Harness => "harness"
    case Plugin => "plugin"
  }

  function EditKey<V>(e: Edit<V>): Option<string> {
    if e.concern == Framework || e.concern == Hooks then Some(ConcernName(e.concern))
    else if e.key.None? then None
    else Some(Trim(e.key.value))
  }

  // The key of an edit that `normalizeEdit` accepts.
  function NormalizeEdit<V>(e: Edit<V>): Option<string> {
    match EditKey(e)
    case None => None
    case Some(key) =>
      if key == "" || '/' in key || '\\' in key || key == "." || key == ".." then None
      else if e.action == SetFile && e.value.None? then None
      else if e.action == DeleteFile && e.concern == Framework then None
      else Some(key)
  }

  function FilePath(configDir: Path, concern: Concern, key: string): Path {
    match concern
    case Framework => configDir + "/framework.yaml"
    case Hooks => configDir + "/hooks.yaml"
    case Agent => configDir + "/agents/" + key + ".yaml"
    case Harness => configDir + "/harnesses/" + key + ".yaml"
    case Plugin => configDir + "/plugins/" + key + ".yaml"
  }

  function Digest<V>(content: Option<string>, env: Env<V>): Option<string> {
    if content.None? then None else Some(env.digest(content.value))
  }

  datatype Planned = Planned(plan: FilePlan) | Refusal(code: FailureCode)

  // One edit against the file as it reads now.
  function PlanEdit<V>(d: Disk, configDir: Path, e: Edit<V>, env: Env<V>): Planned {
    match NormalizeEdit(e)
    case None => Refusal(InvalidEdit)
    case Some(key) =>
      var path := FilePath(configDir, e.concern, key);
      if e.expected.Some? && e.expected != Digest(Read(d, path, env), env) then Refusal(ConfigConflict)
      else if e.action == DeleteFile then Planned(Delete(path))
      else if e.value.None? then Refusal(InvalidEdit)
      else
        match env.serialize(e.concern, key, e.value.value)
        case None => Refusal(InvalidEdit)
        case Some(content) => Planned(Put(path, content))
  }

  // Only an edit that names a file reads it.
  function AfterEdit<V>(d: Disk, e: Edit<V>): Disk {
    if NormalizeEdit(e).None? then d else Tick(d)
  }

  datatype Preview = Preview(disk: Disk, failures: seq<FailureCode>, files: seq<FilePlan>)

  function PlanEdits<V>(d: Disk, configDir: Path, edits: seq<Edit<V>>, env: Env<V>): (r: Preview)
    ensures r.disk.files == d.files
    decreases edits
  {
    if edits == [] then Preview(d, [], [])
    else
      var rest := PlanEdits(AfterEdit(d, edits[0]), configDir, edits[1..], env);
      match PlanEdit(d, configDir, edits[0], env)
      case Refusal(code) => rest.(failures := [code] + rest.failures)
      case Planned(plan) => rest.(files := [plan] + rest.files)
  }

  // A preview of later edits behind what earlier ones gave.
  function Behind(failures: seq<FailureCode>, files: seq<FilePlan>, rest: Preview): Preview {
    Preview(rest.disk, failures + rest.failures, files + rest.files)
  }

  // The edits from the i-th on, one at a time.
  lemma {:induction false} PlanEditsStep<V>(
    d: Disk, configDir: Path, edits: seq<Edit<V>>, i: nat, env: Env<V>, failures: seq<FailureCode>, files: seq<FilePlan>
  )
    requires i < |edits|
    ensures var rest := PlanEdits(AfterEdit(d, edits[i]), configDir, edits[i + 1..], env);
            Behind(failures, files, PlanEdits(d, configDir, edits[i..], env)) ==
            match PlanEdit(d, configDir, edits[i], env)
            case Refusal(code) => Behind(failures + [code], files, rest)
            case Planned(plan) => Behind(failures, files + [plan], rest)
  {
    hide PlanEdit, AfterEdit;
    assert edits[i..][1..] == edits[i + 1..];
    var rest := PlanEdits(AfterEdit(d, edits[i]), configDir, edits[i + 1..], env);
    match PlanEdit(d, configDir, edits[i], env)
    case Refusal(code) => assert failures + ([code] + rest.failures) == failures + [code] + rest.failures;
    case Planned(plan) => assert files + ([plan] + rest.files) == files + [plan] + rest.files;
  }

  lemma {:induction false} PlanEditsEnd<V>(
    d: Disk, configDir: Path, edits: seq<Edit<V>>, env: Env<V>, failures: seq<FailureCode>, files: seq<FilePlan>
  )
    ensures Behind(failures, files, PlanEdits(d, configDir, edits[|edits|..], env)) == Preview(d, failures, files)
  {
    assert failures + [] == failures && files + [] == files;
  }

  // A preview begins with the conflict, if there is one.
  lemma {:induction false} PreviewIs<V>(
    d: Disk, location: Location, expectedRevision: Option<string>, edits: seq<Edit<V>>, env: Env<V>
  )
    requires edits != []
    ensures var revision := env.revision(ReadDigests(d, location.files, env));
            var conflict := if expectedRevision.Some? && expectedRevision.value != revision then [ConfigConflict] else [];
            PreviewTransaction(d, location, expectedRevision, edits, env) ==
            Behind(conflict, [],
                   PlanEdits(d.(clock := d.clock + |location.files|), location.configDir, edits[0..], env))
  {
    hide ReadDigests, PlanEdits;
    assert edits[0..] == edits;
    var planned := PlanEdits(d.(clock := d.clock + |location.files|), location.configDir, edits, env);
    assert [] + planned.failures == planned.failures && [] + planned.files == planned.files;
  }

  function ReadDigests<V>(d: Disk, paths: seq<Path>, env: Env<V>): seq<(Path, Option<string>)>
    decreases paths
  {
    if paths == [] then []
    else [(paths[0], Digest(Read(d, paths[0], env), env))] + ReadDigests(Tick(d), paths[1..], env)
  }

  // The digests from the i-th path on, one at a time.
  lemma {:induction false} ReadDigestsStep<V>(d: Disk, paths: seq<Path>, i: nat, env: Env<V>)
    requires i < |paths|
    ensures ReadDigests(d, paths[i..], env) ==
            [(paths[i], Digest(Read(d, paths[i], env), env))] + ReadDigests(Tick(d), paths[i + 1..], env)
  {
    hide Read, Digest, Tick;
    assert paths[i..][1..] == paths[i + 1..];
  }

  lemma ReadDigestsEnd<V>(d: Disk, paths: seq<Path>, env: Env<V>)
    ensures ReadDigests(d, paths[|paths|..], env) == []
  {
  }

  function PreviewTransaction<V>(
    d: Disk, location: Location, expectedRevision: Option<string>, edits: seq<Edit<V>>, env: Env<V>
  ): (r: Preview)
    ensures r.disk.files == d.files
  {
    if edits == [] then Preview(d, [NoEdits], [])
    else
      var revision := env.revision(ReadDigests(d, location.files, env));
      var planned := PlanEdits(d.(clock := d.clock + |location.files|), location.configDir, edits, env);
      if expectedRevision.Some? && expectedRevision.value != revision
      then planned.(failures := [ConfigConflict] + planned.failures)
      else planned
  }

  // ----- Backups, writes and rollback -----

  function TakeBackups<V>(d: Disk, plan: seq<FilePlan>, env: Env<V>): (r: (Disk, seq<Backup>))
    ensures r.0.files == d.files && |r.1| == |plan|
    ensures forall i | 0 <= i < |plan| :: r.1[i].path == plan[i].path
    decreases plan
  {
    if plan == [] then (d, [])
    else
      var (d1, rest) := TakeBackups(Tick(d), plan[1..], env);
      (d1, [Backup(plan[0].path, Read(d, plan[0].path, env))] + rest)
  }

  function TempPath(path: Path, stamp: string): Path {
    path + "." + stamp + ".tmp"
  }

  function WriteFile<V>(d: Disk, f: FilePlan, env: Env<V>): (Disk, bool) {
    match f
    case Delete(path) => Remove(d, path, env)
    case Put(path, content) =>
      var (d1, made) := MakeDirectory(d, env);
      if !made then (d1, false)
      else
        var temp := TempPath(path, env.stamp(d1.clock));
        var (d2, written) := Write(d1, temp, content, env);
        if !written then (d2, false) else Rename(d2, temp, path, env)
  }

  function WritePlan<V>(d: Disk, plan: seq<FilePlan>, env: Env<V>): (Disk, bool)
    decreases plan
  {
    if plan == [] then (d, true)
    else
      var (d1, ok) := WriteFile(d, plan[0], env);
      if !ok then (d1, false) else WritePlan(d1, plan[1..], env)
  }

  function RestoreFile<V>(d: Disk, b: Backup, env: Env<V>): (Disk, bool) {
    match b.content
    case None => Remove(d, b.path, env)
    case Some(content) =>
      var (d1, made) := MakeDirectory(d, env);
      if !made then (d1, false) else Write(d1, b.path, content, env)
  }

  function Rollback<V>(d: Disk, backups: seq<Backup>, env: Env<V>): (Disk, bool)
    decreases backups
  {
    if backups == [] then (d, true)
    else
      var (d1, ok) := RestoreFile(d, backups[0], env);
      if !ok then (d1, false) else Rollback(d1, backups[1..], env)
  }

  // ----- The transaction -----

  // The `catch` clause.
  function Recover<V>(d: Disk, backups: seq<Backup>, env: Env<V>): (Disk, Outcome) {
    var (d1, ok) := Rollback(d, backups, env);
    (d1, if ok then WriteFailed else RollbackThrew)
  }

  // After the writes: a rollback that throws inside the `try` is caught, and rolled back again.
  function Conclude<V>(d: Disk, backups: seq<Backup>, env: Env<V>): (Disk, Outcome) {
    match env.verify(d.files)
    case Accepted => (d, Applied)
    case VerifierThrows => Recover(d, backups, env)
    case Refused =>
      var (d1, ok) := Rollback(d, backups, env);
      if ok then (d1, VerifyFailed) else Recover(d1, backups, env)
  }

  function ApplyPlan<V>(d: Disk, plan: seq<FilePlan>, env: Env<V>): (Disk, Outcome) {
    var (d1, backups) := TakeBackups(d, plan, env);
    var (d2, written) := WritePlan(d1, plan, env);
    if written then Conclude(d2, backups, env) else Recover(d2, backups, env)
  }

  function ApplyTransaction<V>(
    d: Disk, location: Location, expectedRevision: Option<string>, edits: seq<Edit<V>>, env: Env<V>
  ): (Disk, Outcome) {
    var preview := PreviewTransaction(d, location, expectedRevision, edits, env);
    if preview.failures != [] then (preview.disk, PreviewFailed(preview.failures))
    else ApplyPlan(preview.disk, preview.files, env)
  }

  // ----- What holds of it -----

  function At(files: map<Path, string>, path: Path): Option<string> {
    if path in files then Some(files[path]) else None
  }

  predicate EndsWith(s: string, suffix: string) {
    |s| >= |suffix| && s[|s| - |suffix|..] == suffix
  }

  // Leftover temporary files are not spoken about.
  predicate Visible(path: Path) {
    !EndsWith(path, ".tmp")
  }

  predicate PlanVisible(plan: seq<FilePlan>) {
    forall i | 0 <= i < |plan| :: Visible(plan[i].path)
  }

  lemma {:induction false} TempIsHidden(path: Path, stamp: string)
    ensures !Visible(TempPath(path, stamp))
  {
    var temp := TempPath(path, stamp);
    assert temp[|temp| - 4..] == ".tmp";
  }

  // The effect of the last plan for a path, or the content it had.
  function LastEffect(plan: seq<FilePlan>, path: Path, before: Option<string>): Option<string>
    decreases plan
  {
    if plan == [] then before
    else
      var effect := if plan[0].Put? then Some(plan[0].content) else None;
      LastEffect(plan[1..], path, if plan[0].path == path then effect else before)
  }

  lemma {:induction false} WriteFileEffect<V>(d: Disk, f: FilePlan, env: Env<V>, path: Path)
    requires Visible(path) && Visible(f.path)
    ensures var (d1, ok) := WriteFile(d, f, env);
            && (path != f.path ==> At(d1.files, path) == At(d.files, path))
            && (ok ==> At(d1.files, f.path) == if f.Put? then Some(f.content) else None)
  {
    hide Visible;
    if f.Put? {
      var (d1, made) := MakeDirectory(d, env);
      TempIsHidden(f.path, env.stamp(d1.clock));
    }
  }

  lemma {:induction false} WritePlanEffect<V>(d: Disk, plan: seq<FilePlan>, env: Env<V>, path: Path)
    requires Visible(path) && PlanVisible(plan)
    ensures var (d1, ok) := WritePlan(d, plan, env);
            && (ok ==> At(d1.files, path) == LastEffect(plan, path, At(d.files, path)))
            && ((forall f <- plan :: f.path != path) ==> At(d1.files, path) == At(d.files, path))
    decreases plan
  {
    hide WriteFile, Visible;
    if plan != [] {
      WriteFileEffect(d, plan[0], env, path);
      var (d1, ok) := WriteFile(d, plan[0], env);
      if ok {
        WritePlanEffect(d1, plan[1..], env, path);
      }
    }
  }

  // What the last backup of a path says, or what is there.
  function LastBackup(backups: seq<Backup>, path: Path, before: Option<string>): Option<string>
    decreases backups
  {
    if backups == [] then before
    else LastBackup(backups[1..], path, if backups[0].path == path then backups[0].content else before)
  }

  lemma {:induction false} RollbackEffect<V>(d: Disk, backups: seq<Backup>, env: Env<V>, path: Path)
    ensures var (d1, ok) := Rollback(d, backups, env);
            && (ok ==> At(d1.files, path) == LastBackup(backups, path, At(d.files, path)))
            && ((forall b <- backups :: b.path != path) ==> At(d1.files, path) == At(d.files, path))
    decreases backups
  {
    if backups != [] {
      var (d1, ok) := RestoreFile(d, backups[0], env);
      assert path != backups[0].path ==> At(d1.files, path) == At(d.files, path);
      if ok {
        RollbackEffect(d1, backups[1..], env, path);
      }
    }
  }

  // The last backup of a path: a failed read counts as absence.
  lemma {:induction false} BackupSays<V>(d: Disk, plan: seq<FilePlan>, env: Env<V>, path: Path, before: Option<string>)
    ensures var backups := TakeBackups(d, plan, env).1;
            LastBackup(backups, path, before) ==
            if LastRead(d.clock, plan, path).None? then before
            else if env.faults(LastRead(d.clock, plan, path).value).Works? then At(d.files, path) else None
    decreases plan
  {
    if plan != [] {
      BackupSays(Tick(d), plan[1..], env, path,
                 if plan[0].path == path then Read(d, path, env) else before);
    }
  }

  // The number of the call that makes the last backup of the path.
  function LastRead(clock: nat, plan: seq<FilePlan>, path: Path): (r: Option<nat>)
    decreases plan
  {
    if plan == [] then None
    else
      var rest := LastRead(clock + 1, plan[1..], path);
      if rest.Some? then rest else if plan[0].path == path then Some(clock) else None
  }

  lemma {:induction false} PlannedIsRead(clock: nat, plan: seq<FilePlan>, path: Path)
    ensures LastRead(clock, plan, path).Some? <==> exists i :: 0 <= i < |plan| && plan[i].path == path
    decreases plan
  {
    if plan != [] {
      PlannedIsRead(clock + 1, plan[1..], path);
      if i :| 0 <= i < |plan| && plan[i].path == path && i > 0 {
        assert plan[1..][i - 1].path == path;
      }
    }
  }

  // The file is there, and the read that was to back it up failed.
  predicate BackupMissed<V>(d: Disk, plan: seq<FilePlan>, env: Env<V>, path: Path) {
    var read := LastRead(d.clock, plan, path);
    path in d.files && read.Some? && !env.faults(read.value).Works?
  }

  // Every way of failing that returns ends in one complete rollback.
  lemma {:induction false} FailureEndsInRollback<V>(d: Disk, plan: seq<FilePlan>, env: Env<V>) returns (dirty: Disk)
    requires var outcome := ApplyPlan(d, plan, env).1; outcome == VerifyFailed || outcome == WriteFailed
    requires PlanVisible(plan)
    ensures Rollback(dirty, TakeBackups(d, plan, env).1, env) == (ApplyPlan(d, plan, env).0, true)
    ensures forall path | Visible(path) && (forall f <- plan :: f.path != path) ::
              At(dirty.files, path) == At(d.files, path)
  {
    hide Rollback, WritePlan, TakeBackups, Visible, PlanVisible;
    var (d1, backups) := TakeBackups(d, plan, env);
    var (d2, written) := WritePlan(d1, plan, env);
    dirty := d2;
    if written && env.verify(d2.files).Refused? && !Rollback(d2, backups, env).1 {
      dirty := Rollback(d2, backups, env).0;
    }
    forall path | Visible(path) && (forall f <- plan :: f.path != path)
      ensures At(dirty.files, path) == At(d.files, path)
    {
      WritePlanEffect(d1, plan, env, path);
      NoBackupsFor(d, plan, env, path);
      RollbackEffect(d2, backups, env, path);
    }
  }

  lemma {:induction false} NoBackupsFor<V>(d: Disk, plan: seq<FilePlan>, env: Env<V>, path: Path)
    requires forall f <- plan :: f.path != path
    ensures forall b <- TakeBackups(d, plan, env).1 :: b.path != path
  {
    hide TakeBackups;
    var backups := TakeBackups(d, plan, env).1;
    forall i | 0 <= i < |backups| ensures backups[i].path != path {
      assert backups[i].path == plan[i].path && plan[i] in plan;
    }
  }

  /** A transaction that fails leaves a file as it was exactly when its backup was
      read, or there was nothing to read. A file whose backup was missed is removed. */
  lemma {:induction false} FailureRestores<V>(d: Disk, plan: seq<FilePlan>, env: Env<V>, path: Path)
    requires PlanVisible(plan) && Visible(path)
    requires var outcome := ApplyPlan(d, plan, env).1; outcome == VerifyFailed || outcome == WriteFailed
    ensures At(ApplyPlan(d, plan, env).0.files, path) == At(d.files, path) <==> !BackupMissed(d, plan, env, path)
    ensures BackupMissed(d, plan, env, path) ==> path !in ApplyPlan(d, plan, env).0.files
  {
    hide ApplyPlan, Rollback, TakeBackups, LastRead, LastBackup, Visible, PlanVisible;
    var backups := TakeBackups(d, plan, env).1;
    var dirty := FailureEndsInRollback(d, plan, env);
    RollbackEffect(dirty, backups, env, path);
    BackupSays(d, plan, env, path, At(dirty.files, path));
    PlannedIsRead(d.clock, plan, path);
  }

  /** The failing case: the backup of a file is missed, its write fails, and the
      rollback removes it. */
  lemma {:induction false} MissedBackupRemovesFile<V>(path: Path, before: string, after: string, env: Env<V>)
    requires env.faults(0).Fails? && env.faults(1).Works? && env.faults(2) == Fails(None) && env.faults(3).Works?
    ensures ApplyPlan(Disk(map[path := before], 0), [Put(path, after)], env) == (Disk(map[], 4), WriteFailed)
  {
    hide TempPath;
    var plan, start := [Put(path, after)], Disk(map[path := before], 0);
    assert plan[1..] == [];
    var none: seq<Backup> := [];
    assert TakeBackups(Tick(start), plan[1..], env) == (Tick(start), none);
    assert plan[0].path == path && Read(start, path, env) == None && [Backup(path, None)] + none == [Backup(path, None)];
    assert TakeBackups(start, plan, env) == (Tick(start), [Backup(path, None)]);
    var written := WritePlan(Tick(start), plan, env);
    assert written == (Disk(start.files, 3), false);
    assert map[path := before] - {path} == map[];
    var backups := [Backup(path, None)];
    assert backups[1..] == [];
    assert Rollback(Disk(map[], 4), [], env) == (Disk(map[], 4), true);
    assert Rollback(Disk(start.files, 3), backups, env) == (Disk(map[], 4), true);
  }

  /** So a failing transaction whose backups were all read changes no file. */
  lemma {:induction false} AllOrNothing<V>(d: Disk, plan: seq<FilePlan>, env: Env<V>)
    requires PlanVisible(plan) && forall i | d.clock <= i < d.clock + |plan| :: env.faults(i).Works?
    requires var outcome := ApplyPlan(d, plan, env).1; outcome == VerifyFailed || outcome == WriteFailed
    ensures forall path | Visible(path) :: At(ApplyPlan(d, plan, env).0.files, path) == At(d.files, path)
  {
    hide ApplyPlan, Visible, PlanVisible;
    forall path | Visible(path)
      ensures At(ApplyPlan(d, plan, env).0.files, path) == At(d.files, path)
    {
      FailureRestores(d, plan, env, path);
      LastReadInRange(d.clock, plan, path);
    }
  }

  lemma {:induction false} LastReadInRange(clock: nat, plan: seq<FilePlan>, path: Path)
    ensures LastRead(clock, plan, path).Some? ==> clock <= LastRead(clock, plan, path).value < clock + |plan|
    decreases plan
  {
    if plan != [] {
      LastReadInRange(clock + 1, plan[1..], path);
    }
  }

  /** On success every file holds the effect of the last edit to it. */
  lemma {:induction false} SuccessHoldsLastEdits<V>(d: Disk, plan: seq<FilePlan>, env: Env<V>, path: Path)
    requires PlanVisible(plan) && Visible(path) && ApplyPlan(d, plan, env).1 == Applied
    ensures At(ApplyPlan(d, plan, env).0.files, path) == LastEffect(plan, path, At(d.files, path))
  {
    hide Rollback, WritePlan, TakeBackups, Visible, PlanVisible;
    WritePlanEffect(TakeBackups(d, plan, env).0, plan, env, path);
  }

  /** With no fault at all, a transaction either applies or changes nothing. */
  lemma {:induction false} NoFaultNoThrow<V>(d: Disk, plan: seq<FilePlan>, env: Env<V>)
    requires forall i: nat :: env.faults(i).Works?
    ensures ApplyPlan(d, plan, env).1 != RollbackThrew
  {
    hide WritePlan, TakeBackups, Rollback;
    var (d1, backups) := TakeBackups(d, plan, env);
    var d2 := WritePlan(d1, plan, env).0;
    RollbackWorks(d2, backups, env);
  }

  lemma {:induction false} RollbackWorks<V>(d: Disk, backups: seq<Backup>, env: Env<V>)
    requires forall i: nat :: env.faults(i).Works?
    ensures Rollback(d, backups, env).1
    decreases backups
  {
    if backups != [] {
      assert env.faults(d.clock).Works? && env.faults(d.clock + 1).Works?;
      RollbackWorks(RestoreFile(d, backups[0], env).0, backups[1..], env);
    }
  }

  // ----- From edits to files -----

  lemma {:induction false} YamlPathVisible(configDir: Path, concern: Concern, key: string)
    ensures Visible(FilePath(configDir, concern, key))
  {
    var path := FilePath(configDir, concern, key);
    assert path[|path| - 1] == 'l';
    if EndsWith(path, ".tmp") {
      TempEndsInP(path);
    }
  }

  lemma {:induction false} TempEndsInP(s: string)
    requires EndsWith(s, ".tmp")
    ensures s[|s| - 1] == 'p'
  {
    assert s[|s| - 4..][3] == 'p';
  }

  /** Different files for different concerns and keys. */
  lemma {:induction false} PathsTellEditsApart(configDir: Path, c1: Concern, k1: string, c2: Concern, k2: string)
    requires FilePath(configDir, c1, k1) == FilePath(configDir, c2, k2)
    ensures c1 == c2 && (c1 == Framework || c1 == Hooks || k1 == k2)
  {
    var n := |configDir|;
    var p1, p2 := FilePath(configDir, c1, k1), FilePath(configDir, c2, k2);
    assert p1[n + 1] == p2[n + 1] && p1[n + 2] == p2[n + 2];
    if c1 == c2 && c1 != Framework && c1 != Hooks {
      var start := if c1 == Agent then n + 8 else if c1 == Harness then n + 11 else n + 9;
      assert |k1| == |k2|;
      assert p1[start..start + |k1|] == k1;
      assert p2[start..start + |k2|] == k2;
    }
  }

  // The plan an accepted edit gives, and the check of the file's digest it passed.
  ghost predicate Carries<V>(configDir: Path, e: Edit<V>, f: FilePlan, content: Option<string>, env: Env<V>) {
    && NormalizeEdit(e).Some? && f.path == FilePath(configDir, e.concern, NormalizeEdit(e).value)
    && (e.expected.Some? ==> e.expected == Digest(content, env))
    && match f
       case Delete(_) => e.action == DeleteFile
       case Put(_, text) =>
         e.action == SetFile && e.value.Some?
         && env.serialize(e.concern, NormalizeEdit(e).value, e.value.value) == Some(text)
  }

  /** A plan without failures carries out every edit, in order, each against the
      content its file had (or none, when the read failed). */
  lemma {:induction false} PlanCarriesEdits<V>(d: Disk, configDir: Path, edits: seq<Edit<V>>, env: Env<V>)
    requires PlanEdits(d, configDir, edits, env).failures == []
    ensures var files := PlanEdits(d, configDir, edits, env).files;
            && |files| == |edits| && PlanVisible(files)
            && forall i | 0 <= i < |edits| ::
                 || Carries(configDir, edits[i], files[i], At(d.files, files[i].path), env)
                 || Carries(configDir, edits[i], files[i], None, env)
    decreases edits
  {
    hide NormalizeEdit, FilePath, Digest, Visible;
    if edits != [] {
      var rest := PlanEdits(AfterEdit(d, edits[0]), configDir, edits[1..], env);
      PlanCarriesEdits(AfterEdit(d, edits[0]), configDir, edits[1..], env);
      YamlPathVisible(configDir, edits[0].concern, NormalizeEdit(edits[0]).value);
      var files := PlanEdits(d, configDir, edits, env).files;
      assert files == [PlanEdit(d, configDir, edits[0], env).plan] + rest.files;
      forall i | 0 <= i < |edits|
        ensures Carries(configDir, edits[i], files[i], At(d.files, files[i].path), env)
             || Carries(configDir, edits[i], files[i], None, env)
      {
        if i > 0 {
          assert edits[i] == edits[1..][i - 1] && files[i] == rest.files[i - 1];
        }
      }
    }
  }

  /** The whole call: a failure that returns leaves every file as it was, unless the
      backup of an existing file could not be read; success applies the last edits. */
  lemma {:induction false} TransactionIsAllOrNothing<V>(
    d: Disk, location: Location, expectedRevision: Option<string>, edits: seq<Edit<V>>, env: Env<V>, path: Path
  )
    requires Visible(path)
    ensures var preview := PreviewTransaction(d, location, expectedRevision, edits, env);
            var (d1, outcome) := ApplyTransaction(d, location, expectedRevision, edits, env);
            match outcome
            case PreviewFailed(failures) => failures != [] && d1.files == d.files
            case Applied => At(d1.files, path) == LastEffect(preview.files, path, At(d.files, path))
            case RollbackThrew => true
            case _ =>
              At(d1.files, path) == At(d.files, path) <==> !BackupMissed(preview.disk, preview.files, env, path)
  {
    hide ApplyPlan, PlanEdits, ReadDigests, LastEffect, BackupMissed, Visible;
    var preview := PreviewTransaction(d, location, expectedRevision, edits, env);
    if preview.failures == [] {
      PlanCarriesEdits(d.(clock := d.clock + |location.files|), location.configDir, edits, env);
      var outcome := ApplyPlan(preview.disk, preview.files, env).1;
      OutcomesOfPlan(preview.disk, preview.files, env);
      if outcome == Applied {
        SuccessHoldsLastEdits(preview.disk, preview.files, env, path);
      } else if outcome != RollbackThrew {
        FailureRestores(preview.disk, preview.files, env, path);
      }
    }
  }

  lemma OutcomesOfPlan<V>(d: Disk, plan: seq<FilePlan>, env: Env<V>)
    ensures !ApplyPlan(d, plan, env).1.PreviewFailed?
  {
  }
}
