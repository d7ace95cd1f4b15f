/**
 The transaction as the source runs it: loops over the edits, the backups and the
 plan, against a file system that changes with every call.
 */
module ConfigTransactionRun {

  import opened Options
  import opened ConfigTransaction

  class FileSystem<!V> {
    var disk: Disk
    const env: Env<V>

    constructor (disk: Disk, env: Env<V>)
      ensures this.disk == disk && this.env == env
    {
      this.disk, this.env := disk, env;
    }

    method ReadFile(path: Path) returns (content: Option<string>)
      modifies this
      ensures content == Read(old(disk), path, env) && disk == Tick(old(disk))
    {
      content := Read(disk, path, env);
      disk := Tick(disk);
    }

    method Rm(path: Path) returns (ok: bool)
      modifies this
      ensures (disk, ok) == Remove(old(disk), path, env)
    {
      var r := Remove(disk, path, env);
      disk, ok := r.0, r.1;
    }

    method Mkdir() returns (ok: bool)
      modifies this
      ensures (disk, ok) == MakeDirectory(old(disk), env)
    {
      var r := MakeDirectory(disk, env);
      disk, ok := r.0, r.1;
    }

    method WriteText(path: Path, content: string) returns (ok: bool)
      modifies this
      ensures (disk, ok) == Write(old(disk), path, content, env)
    {
      var r := Write(disk, path, content, env);
      disk, ok := r.0, r.1;
    }

    method Move(from: Path, to: Path) returns (ok: bool)
      modifies this
      ensures (disk, ok) == Rename(old(disk), from, to, env)
    {
      var r := Rename(disk, from, to, env);
      disk, ok := r.0, r.1;
    }

    method ComputeRevision(paths: seq<Path>) returns (revision: string)
      modifies this
      ensures revision == env.revision(ReadDigests(old(disk), paths, env))
      ensures disk == old(disk).(clock := old(disk).clock + |paths|)
    {
      hide Read, ReadDigests, Digest;
      var entries: seq<(Path, Option<string>)> := [];
      var i := 0;
      assert paths[0..] == paths && [] + ReadDigests(disk, paths, env) == ReadDigests(disk, paths, env);
      while i < |paths|
        invariant 0 <= i <= |paths|
        invariant disk == old(disk).(clock := old(disk).clock + i)
        invariant ReadDigests(old(disk), paths, env) == entries + ReadDigests(disk, paths[i..], env)
      {
        ReadDigestsStep(disk, paths, i, env);
        var content := ReadFile(paths[i]);
        entries := entries + [(paths[i], Digest(content, env))];
        i := i + 1;
      }
      ReadDigestsEnd(disk, paths, env);
      assert entries + [] == entries;
      revision := env.revision(entries);
    }

    method PlanOne(configDir: Path, edit: Edit<V>) returns (planned: Planned)
      modifies this
      ensures planned == PlanEdit(old(disk), configDir, edit, env) && disk == AfterEdit(old(disk), edit)
    {
      hide NormalizeEdit, FilePath, Read;
      var key := NormalizeEdit(edit);
      if key.None? {
        return Refusal(InvalidEdit);
      }
      var path := FilePath(configDir, edit.concern, key.value);
      var content := ReadFile(path);
      if edit.expected.Some? && edit.expected != Digest(content, env) {
        return Refusal(ConfigConflict);
      }
      if edit.action == DeleteFile {
        return Planned(Delete(path));
      }
      if edit.value.None? {
        return Refusal(InvalidEdit);
      }
      var text := env.serialize(edit.concern, key.value, edit.value.value);
      planned := if text.None? then Refusal(InvalidEdit) else Planned(Put(path, text.value));
    }

    method PreviewEdits(location: Location, expectedRevision: Option<string>, edits: seq<Edit<V>>)
      returns (failures: seq<FailureCode>, files: seq<FilePlan>)
      modifies this
      ensures Preview(disk, failures, files) == PreviewTransaction(old(disk), location, expectedRevision, edits, env)
    {
      hide PlanEdit, AfterEdit, ReadDigests, PlanEdits, Behind;
      if |edits| == 0 {
        return [NoEdits], [];
      }
      hide PreviewTransaction;
      PreviewIs(disk, location, expectedRevision, edits, env);
      failures, files := [], [];
      var revision := ComputeRevision(location.files);
      if expectedRevision.Some? && expectedRevision.value != revision {
        failures := [ConfigConflict];
      }
      var i := 0;
      while i < |edits|
        invariant 0 <= i <= |edits|
        invariant PreviewTransaction(old(disk), location, expectedRevision, edits, env)
               == Behind(failures, files, PlanEdits(disk, location.configDir, edits[i..], env))
      {
        PlanEditsStep(disk, location.configDir, edits, i, env, failures, files);
        var planned := PlanOne(location.configDir, edits[i]);
        match planned {
          case Refusal(code) => failures := failures + [code];
          case Planned(plan) => files := files + [plan];
        }
        i := i + 1;
      }
      PlanEditsEnd(disk, location.configDir, edits, env, failures, files);
    }

    method CreateBackups(plan: seq<FilePlan>) returns (backups: seq<Backup>)
      modifies this
      ensures (disk, backups) == TakeBackups(old(disk), plan, env)
    {
      hide Read;
      backups := [];
      var i := 0;
      while i < |plan|
        invariant 0 <= i <= |plan|
        invariant TakeBackups(old(disk), plan, env).0 == TakeBackups(disk, plan[i..], env).0
        invariant TakeBackups(old(disk), plan, env).1 == backups + TakeBackups(disk, plan[i..], env).1
      {
        assert plan[i..][1..] == plan[i + 1..];
        var content := ReadFile(plan[i].path);
        backups := backups + [Backup(plan[i].path, content)];
        i := i + 1;
      }
      assert plan[i..] == [] && backups + [] == backups;
    }

    // False stands for the exception of the call that failed.
    method WriteFiles(plan: seq<FilePlan>) returns (ok: bool)
      modifies this
      ensures (disk, ok) == WritePlan(old(disk), plan, env)
    {
      var i := 0;
      while i < |plan|
        invariant 0 <= i <= |plan|
        invariant WritePlan(old(disk), plan, env) == WritePlan(disk, plan[i..], env)
      {
        assert plan[i..][1..] == plan[i + 1..];
        match plan[i] {
          case Delete(path) =>
            ok := Rm(path);
            if !ok {
              return;
            }
          case Put(path, content) =>
            ok := Mkdir();
            if !ok {
              return;
            }
            var temp := TempPath(path, env.stamp(disk.clock));
            ok := WriteText(temp, content);
            if !ok {
              return;
            }
            ok := Move(temp, path);
            if !ok {
              return;
            }
        }
        i := i + 1;
      }
      ok := true;
    }

    method RestoreBackups(backups: seq<Backup>) returns (ok: bool)
      modifies this
      ensures (disk, ok) == Rollback(old(disk), backups, env)
    {
      var i := 0;
      while i < |backups|
        invariant 0 <= i <= |backups|
        invariant Rollback(old(disk), backups, env) == Rollback(disk, backups[i..], env)
      {
        assert backups[i..][1..] == backups[i + 1..];
        if backups[i].content.None? {
          ok := Rm(backups[i].path);
        } else {
          ok := Mkdir();
          if ok {
            ok := WriteText(backups[i].path, backups[i].content.value);
          }
        }
        if !ok {
          return;
        }
        i := i + 1;
      }
      ok := true;
    }

    method Apply(location: Location, expectedRevision: Option<string>, edits: seq<Edit<V>>) returns (outcome: Outcome)
      modifies this
      ensures (disk, outcome) == ApplyTransaction(old(disk), location, expectedRevision, edits, env)
    {
      hide TakeBackups, WritePlan, Rollback, PreviewTransaction;
      var failures, files := PreviewEdits(location, expectedRevision, edits);
      if failures != [] {
        return PreviewFailed(failures);
      }
      var backups := CreateBackups(files);
      var ok := WriteFiles(files);
      if ok {
        match env.verify(disk.files) {
          case Accepted => return Applied;
          case Refused =>
            ok := RestoreBackups(backups);
            if ok {
              return VerifyFailed;
            }
          case VerifierThrows =>
        }
      }
      ok := RestoreBackups(backups);
      outcome := if ok then WriteFailed else RollbackThrew;
    }
  }
}
