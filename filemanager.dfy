/**
 * The environment-switch engine (internal/file/file.go): back up the targets
 * of an environment, copy each source onto its target in list order, roll
 * back from the backup on the first failure, and record the switch in the
 * application state. The same manager keeps the per-environment file
 * mappings.
 */
module FileManager {
  import opened Results
  import opened Models
  import opened Disk
  import opened Storage

  // ----- paths and identifiers -----

  /** p lies inside directory dir. */
  predicate Within(p: Path, dir: Path) {
    |p| > |dir| && p[..|dir| + 1] == dir + "/"
  }

  /** p is where the store keeps one of its own documents: `<data>/state.json`,
      a file under `<data>/projects`, or a file under the backup root. */
  predicate StorePath(st: Store, p: Path) {
    p == st.dataDir + "/" + StateFile || Within(p, ProjectsDir(st)) || Within(p, st.backupRoot)
  }

  /** No mapping reads or writes one of the store's own documents. */
  predicate ClearOfStore(st: Store, fcs: seq<FileConfig>) {
    forall k :: 0 <= k < |fcs| ==> !StorePath(st, fcs[k].sourcePath) && !StorePath(st, fcs[k].targetPath)
  }

  /** `filepath.Join(backupDir, backupID)`. */
  function BackupDir(st: Store, backupId: string): Path {
    st.backupRoot + "/" + backupId
  }

  /** The copy of target kept in dir: `<dir>/<base of target>_<suffix>`. */
  function BackupPath(dir: Path, target: Path, suffix: string): (r: Path)
    ensures Within(r, dir)
  {
    var r := dir + "/" + Base(target) + "_" + suffix;
    assert r[..|dir| + 1] == (dir + "/")[..|dir| + 1];
    r
  }

  /** The identifier oracle: `ids(0)` names the backup, `ids(1)`, `ids(2)`, ...
      are the suffixes of its copies; all distinct, all of uuid length. */
  ghost predicate FreshIds(ids: nat -> string) {
    (forall i: nat, j: nat :: i != j ==> ids(i) != ids(j))
    && (forall i: nat :: |ids(i)| == 36)
  }

  lemma BackupPathsDiffer(dir: Path, t1: Path, t2: Path, ids: nat -> string, i: nat, j: nat)
    requires FreshIds(ids) && i != j
    ensures BackupPath(dir, t1, ids(i)) != BackupPath(dir, t2, ids(j))
  {
    SuffixesDiffer(dir + "/" + Base(t1) + "_", dir + "/" + Base(t2) + "_", ids(i), ids(j));
  }

  ghost predicate NoDup(s: seq<Path>) {
    forall i, j :: 0 <= i < j < |s| ==> s[i] != s[j]
  }

  /** order visits every key of m exactly once, as a Go map range does. */
  ghost predicate Enumerates(order: seq<Path>, m: map<Path, Path>) {
    NoDup(order) && forall t :: t in order <==> t in m
  }

  ghost function SetToSeq(s: set<Path>): (r: seq<Path>)
    ensures NoDup(r) && forall x :: x in r <==> x in s
    decreases s
  {
    if s == {} then []
    else
      var x :| x in s;
      [x] + SetToSeq(s - {x})
  }

  lemma NoDupConcat(a: seq<Path>, b: seq<Path>)
    requires NoDup(a) && NoDup(b) && forall x :: x in a ==> x !in b
    ensures NoDup(a + b)
  {
    var c := a + b;
    forall i, j | 0 <= i < j < |c|
      ensures c[i] != c[j]
    {
      if j >= |a| && i < |a| {
        assert c[i] in a && c[j] == b[j - |a|];
      } else if i >= |a| {
        assert c[i] == b[i - |a|] && c[j] == b[j - |a|];
      }
    }
  }

  // ----- one file -----

  /** `switchFile`: the source must exist and the target's directory must be
      creatable; then the source is copied onto the target. */
  function SwitchOne(files: Files, faults: Faults, fc: FileConfig): (r: (Files, Result<Unit>))
    ensures r.1.Ok? <==> fc.sourcePath in files && ParentDir(fc.targetPath) !in faults.badDirs
                         && fc.targetPath !in faults.readOnly
    ensures fc.sourcePath !in files ==> r.1 == Err(SourceMissing(fc.sourcePath))
    ensures r.1.Err? ==> r.0 == files
    ensures r.1.Ok? && fc.sourcePath != fc.targetPath ==> r.0 == files[fc.targetPath := files[fc.sourcePath]]
  {
    if fc.sourcePath !in files then (files, Err(SourceMissing(fc.sourcePath)))
    else if ParentDir(fc.targetPath) in faults.badDirs then (files, Err(MkdirFailed(ParentDir(fc.targetPath))))
    else Copy(files, faults, fc.sourcePath, fc.targetPath)
  }

  /** The switch loop: each file in list order; the first failure stops it and
      reports that file's target. */
  function SwitchFiles(files: Files, faults: Faults, fcs: seq<FileConfig>): (Files, Option<(Path, Error)>)
    decreases |fcs|
  {
    if fcs == [] then (files, None)
    else
      var (f, r) := SwitchOne(files, faults, fcs[0]);
      if r.Err? then (files, Some((fcs[0].targetPath, r.error)))
      else SwitchFiles(f, faults, fcs[1..])
  }

  /** The switch writes nothing but targets. */
  lemma {:induction false} SwitchFilesOnlyTargets(files: Files, faults: Faults, fcs: seq<FileConfig>, p: Path)
    requires forall k :: 0 <= k < |fcs| ==> fcs[k].targetPath != p
    ensures var f := SwitchFiles(files, faults, fcs).0;
            (p in f <==> p in files) && (p in files ==> f[p] == files[p])
    decreases |fcs|
  {
    if fcs != [] {
      var (f, r) := SwitchOne(files, faults, fcs[0]);
      if r.Ok? {
        assert forall k :: 0 <= k < |fcs| - 1 ==> fcs[1..][k] == fcs[k + 1];
        SwitchFilesOnlyTargets(f, faults, fcs[1..], p);
      }
    }
  }

  ghost predicate UniqueTargets(fcs: seq<FileConfig>) {
    forall i, j :: 0 <= i < j < |fcs| ==> fcs[i].targetPath != fcs[j].targetPath
  }

  ghost predicate SourcesNotTargets(fcs: seq<FileConfig>) {
    forall i, j :: 0 <= i < |fcs| && 0 <= j < |fcs| ==> fcs[i].sourcePath != fcs[j].targetPath
  }

  /** A switch that completes leaves every target holding its source's bytes
      and mode, provided no target is listed twice and no source is a target. */
  lemma {:induction false} SwitchFilesDeliver(files: Files, faults: Faults, fcs: seq<FileConfig>)
    requires UniqueTargets(fcs) && SourcesNotTargets(fcs)
    requires SwitchFiles(files, faults, fcs).1.None?
    ensures var f := SwitchFiles(files, faults, fcs).0;
            forall k :: 0 <= k < |fcs| ==>
              fcs[k].sourcePath in files && fcs[k].targetPath in f && f[fcs[k].targetPath] == files[fcs[k].sourcePath]
    decreases |fcs|
  {
    if fcs != [] {
      var fc := fcs[0];
      var rest := fcs[1..];
      assert forall k :: 0 <= k < |rest| ==> rest[k] == fcs[k + 1];
      var (f1, r) := SwitchOne(files, faults, fc);
      assert fc.sourcePath != fc.targetPath;
      SwitchFilesDeliver(f1, faults, rest);
      var f := SwitchFiles(files, faults, fcs).0;
      assert f == SwitchFiles(f1, faults, rest).0;
      forall k | 0 <= k < |fcs|
        ensures fcs[k].sourcePath in files && fcs[k].targetPath in f && f[fcs[k].targetPath] == files[fcs[k].sourcePath]
      {
        if k == 0 {
          SwitchFilesOnlyTargets(f1, faults, rest, fc.targetPath);
        } else {
          assert fcs[k].sourcePath != fc.targetPath;
          assert rest[k - 1] == fcs[k];
        }
      }
    }
  }

  /** On the first failure, the files are exactly those after the earlier
      files were switched, later files are not attempted, and the error names
      the failing file's target. */
  lemma {:induction false} SwitchFilesFirstFailure(files: Files, faults: Faults, fcs: seq<FileConfig>) returns (k: nat)
    requires SwitchFiles(files, faults, fcs).1.Some?
    ensures k < |fcs|
    ensures var (f, failed) := SwitchFiles(files, faults, fcs);
            SwitchFiles(files, faults, fcs[..k]) == (f, None)
            && SwitchOne(f, faults, fcs[k]).1.Err?
            && failed.value == (fcs[k].targetPath, SwitchOne(f, faults, fcs[k]).1.error)
    decreases |fcs|
  {
    var (f1, r) := SwitchOne(files, faults, fcs[0]);
    if r.Err? {
      k := 0;
    } else {
      var j := SwitchFilesFirstFailure(f1, faults, fcs[1..]);
      k := j + 1;
      assert fcs[..k][1..] == fcs[1..][..j];
      assert fcs[1..][j] == fcs[k];
    }
  }

  // ----- backup -----

  /** The first environment with this id (`CreateBackup` and `SwitchEnvironment` match on id only). */
  function FirstWithId(envs: seq<Environment>, id: string): (r: Option<nat>)
    ensures r.Some? ==> r.value < |envs| && envs[r.value].id == id
    ensures r.Some? ==> forall k :: 0 <= k < r.value ==> envs[k].id != id
    ensures r.None? <==> forall k :: 0 <= k < |envs| ==> envs[k].id != id
  {
    if envs == [] then None
    else if envs[0].id == id then Some(0)
    else match FirstWithId(envs[1..], id)
      case None => None
      case Some(k) => Some(k + 1)
  }

  /** The backup loop: every target that exists is copied into dir under a
      fresh name and recorded; one that does not exist is skipped; a failed
      copy stops the loop. The copies already made stay. */
  function BackupLoop(files: Files, faults: Faults, dir: Path, fcs: seq<FileConfig>, ids: nat -> string, next: nat,
                      acc: map<Path, Path>): (Files, Result<map<Path, Path>>)
    decreases |fcs|
  {
    if fcs == [] then (files, Ok(acc))
    else
      var t := fcs[0].targetPath;
      if t !in files then BackupLoop(files, faults, dir, fcs[1..], ids, next, acc)
      else
        var path := BackupPath(dir, t, ids(next));
        var (f, r) := Copy(files, faults, t, path);
        if r.Err? then (files, Err(BackupFileFailed(t, r.error)))
        else BackupLoop(f, faults, dir, fcs[1..], ids, next + 1, acc[t := path])
  }

  /** The backup writes only inside its own directory. */
  lemma {:induction false} BackupLoopOutside(files: Files, faults: Faults, dir: Path, fcs: seq<FileConfig>,
                                             ids: nat -> string, next: nat, acc: map<Path, Path>, p: Path)
    requires !Within(p, dir)
    ensures var f := BackupLoop(files, faults, dir, fcs, ids, next, acc).0;
            (p in f <==> p in files) && (p in files ==> f[p] == files[p])
    decreases |fcs|
  {
    if fcs != [] {
      var t := fcs[0].targetPath;
      if t !in files {
        BackupLoopOutside(files, faults, dir, fcs[1..], ids, next, acc, p);
      } else {
        var path := BackupPath(dir, t, ids(next));
        var (f, r) := Copy(files, faults, t, path);
        if r.Ok? {
          BackupLoopOutside(f, faults, dir, fcs[1..], ids, next + 1, acc[t := path], p);
        }
      }
    }
  }

  ghost predicate NoTargetWithin(fcs: seq<FileConfig>, dir: Path) {
    forall k :: 0 <= k < |fcs| ==> !Within(fcs[k].targetPath, dir)
  }

  /** Every recorded copy holds what its target held, and was named with a suffix below next. */
  ghost predicate BackedUp(files: Files, dir: Path, ids: nat -> string, next: nat, acc: map<Path, Path>) {
    forall t :: t in acc ==>
      !Within(t, dir) && t in files && acc[t] in files && files[acc[t]] == files[t]
      && exists j: nat :: j < next && acc[t] == BackupPath(dir, t, ids(j))
  }

  /** One recorded copy more: the new copy's name is fresh, so earlier copies survive. */
  lemma BackupStep(files: Files, faults: Faults, dir: Path, t: Path, ids: nat -> string, next: nat, acc: map<Path, Path>)
    requires FreshIds(ids) && !Within(t, dir) && t in files && BackedUp(files, dir, ids, next, acc)
    requires Copy(files, faults, t, BackupPath(dir, t, ids(next))).1.Ok?
    ensures BackedUp(Copy(files, faults, t, BackupPath(dir, t, ids(next))).0, dir, ids, next + 1,
                     acc[t := BackupPath(dir, t, ids(next))])
  {
    var path := BackupPath(dir, t, ids(next));
    var f1 := Copy(files, faults, t, path).0;
    var acc1 := acc[t := path];
    forall u | u in acc1
      ensures !Within(u, dir) && u in f1 && acc1[u] in f1 && f1[acc1[u]] == f1[u]
              && exists j: nat :: j < next + 1 && acc1[u] == BackupPath(dir, u, ids(j))
    {
      if u != t {
        var j: nat :| j < next && acc[u] == BackupPath(dir, u, ids(j));
        BackupPathsDiffer(dir, u, t, ids, j, next);
      }
    }
  }

  /** The keys of a finished backup: the recorded ones plus exactly the targets that existed. */
  lemma {:induction false} BackupLoopKeys(files: Files, faults: Faults, dir: Path, fcs: seq<FileConfig>,
                                          ids: nat -> string, next: nat, acc: map<Path, Path>)
    requires NoTargetWithin(fcs, dir)
    ensures var r := BackupLoop(files, faults, dir, fcs, ids, next, acc).1;
            r.Ok? ==> forall t :: t in r.value <==> t in acc || exists k :: 0 <= k < |fcs| && fcs[k].targetPath == t && t in files
    decreases |fcs|
  {
    if fcs != [] {
      var t := fcs[0].targetPath;
      var rest := fcs[1..];
      assert forall k :: 0 <= k < |rest| ==> rest[k] == fcs[k + 1];
      if t !in files {
        BackupLoopKeys(files, faults, dir, rest, ids, next, acc);
      } else {
        var path := BackupPath(dir, t, ids(next));
        var (f1, c) := Copy(files, faults, t, path);
        if c.Ok? {
          BackupLoopKeys(f1, faults, dir, rest, ids, next + 1, acc[t := path]);
          forall k | 0 <= k < |rest|
            ensures rest[k].targetPath in f1 <==> rest[k].targetPath in files
          {
            assert !Within(rest[k].targetPath, dir);
          }
        }
      }
    }
  }

  /** The copies of a finished backup hold their targets' content and mode. */
  lemma {:induction false} BackupLoopCopies(files: Files, faults: Faults, dir: Path, fcs: seq<FileConfig>,
                                            ids: nat -> string, next: nat, acc: map<Path, Path>)
    requires FreshIds(ids) && NoTargetWithin(fcs, dir) && BackedUp(files, dir, ids, next, acc)
    ensures var (f, r) := BackupLoop(files, faults, dir, fcs, ids, next, acc);
            r.Ok? ==> exists n: nat :: BackedUp(f, dir, ids, n, r.value)
    decreases |fcs|
  {
    if fcs == [] {
      assert BackedUp(files, dir, ids, next, acc);
    } else {
      var t := fcs[0].targetPath;
      var rest := fcs[1..];
      assert forall k :: 0 <= k < |rest| ==> rest[k] == fcs[k + 1];
      if t !in files {
        BackupLoopCopies(files, faults, dir, rest, ids, next, acc);
      } else {
        var path := BackupPath(dir, t, ids(next));
        var (f1, c) := Copy(files, faults, t, path);
        if c.Ok? {
          assert !Within(t, dir);
          BackupStep(files, faults, dir, t, ids, next, acc);
          BackupLoopCopies(f1, faults, dir, rest, ids, next + 1, acc[t := path]);
        }
      }
    }
  }

  /** A backup loop that fails does so at some file i whose target exists:
      the loop over the files before i succeeds and leaves the same files. */
  lemma {:induction false} BackupLoopFailsAt(files: Files, faults: Faults, dir: Path, fcs: seq<FileConfig>,
                                             ids: nat -> string, next: nat, acc: map<Path, Path>)
    returns (i: nat)
    requires BackupLoop(files, faults, dir, fcs, ids, next, acc).1.Err?
    ensures i < |fcs|
    ensures var (f, r) := BackupLoop(files, faults, dir, fcs, ids, next, acc);
            var (g, q) := BackupLoop(files, faults, dir, fcs[..i], ids, next, acc);
            r.error.BackupFileFailed? && r.error.target == fcs[i].targetPath
            && q.Ok? && g == f && fcs[i].targetPath in g
    decreases |fcs|
  {
    var t := fcs[0].targetPath;
    var rest := fcs[1..];
    if t in files && Copy(files, faults, t, BackupPath(dir, t, ids(next))).1.Err? {
      i := 0;
    } else {
      var i1;
      if t !in files {
        i1 := BackupLoopFailsAt(files, faults, dir, rest, ids, next, acc);
      } else {
        var path := BackupPath(dir, t, ids(next));
        i1 := BackupLoopFailsAt(Copy(files, faults, t, path).0, faults, dir, rest, ids, next + 1, acc[t := path]);
      }
      i := i1 + 1;
      assert fcs[..i][0] == fcs[0] && fcs[..i][1..] == rest[..i1];
      assert rest[i1] == fcs[i];
    }
  }

  /** `CreateBackup`: load the project, find the environment by id, create
      `<backupRoot>/<ids(0)>`, copy the existing targets there and save the
      record. */
  function CreateBackupEffect(st: Store, projectId: string, envId: string, ids: nat -> string, at: Time): (e: Effect<string>)
    ensures e.after == st.(files := e.after.files, backups := e.after.backups)
    ensures e.result.Err? ==> e.after.backups == st.backups
    ensures e.result.Ok? ==> e.result.value == ids(0)
    ensures LoadProject(st, projectId).Err? ==> e == Effect(st, Err(LoadProject(st, projectId).error))
    ensures LoadProject(st, projectId).Ok? && FirstWithId(LoadProject(st, projectId).value.environments, envId).None? ==>
              e == Effect(st, Err(EnvironmentNotFound(envId)))
  {
    match LoadProject(st, projectId)
    case Err(err) => Effect(st, Err(err))
    case Ok(p) =>
      match FirstWithId(p.environments, envId)
      case None => Effect(st, Err(EnvironmentNotFound(envId)))
      case Some(k) =>
        var dir := BackupDir(st, ids(0));
        if dir in st.faults.badDirs then Effect(st, Err(MkdirFailed(dir)))
        else
          var (files, copied) := BackupLoop(st.files, st.faults, dir, p.environments[k].files, ids, 1, map[]);
          var st1 := st.(files := files);
          if copied.Err? then Effect(st1, Err(copied.error))
          else
            var saved := SaveBackupInfoEffect(st1, BackupInfo(ids(0), at, copied.value, projectId, envId));
            Effect(saved.after, if saved.result.Ok? then Ok(ids(0)) else Err(saved.result.error))
  }

  /** Files outside the new backup directory are untouched by a backup, whether it succeeds or not. */
  lemma BackupOnlyWritesItsDirectory(st: Store, projectId: string, envId: string, ids: nat -> string, at: Time, p: Path)
    requires !Within(p, BackupDir(st, ids(0)))
    ensures var f := CreateBackupEffect(st, projectId, envId, ids, at).after.files;
            (p in f <==> p in st.files) && (p in st.files ==> f[p] == st.files[p])
  {
    if LoadProject(st, projectId).Ok? {
      var pr := LoadProject(st, projectId).value;
      if FirstWithId(pr.environments, envId).Some? {
        var k := FirstWithId(pr.environments, envId).value;
        BackupLoopOutside(st.files, st.faults, BackupDir(st, ids(0)), pr.environments[k].files, ids, 1, map[], p);
      }
    }
  }

  /** The files of environment envId of project projectId, as the switch finds them. */
  function EnvFiles(st: Store, projectId: string, envId: string): seq<FileConfig> {
    match LoadProject(st, projectId)
    case Err(_) => []
    case Ok(p) =>
      match FirstWithId(p.environments, envId)
      case None => []
      case Some(k) => p.environments[k].files
  }

  /** The backup loop failing at file i leaves a copy of every earlier target that existed. */
  lemma BackupLoopKeepsCopies(files: Files, faults: Faults, dir: Path, fcs: seq<FileConfig>, ids: nat -> string)
    returns (i: nat, copies: map<Path, Path>)
    requires FreshIds(ids) && NoTargetWithin(fcs, dir)
    requires BackupLoop(files, faults, dir, fcs, ids, 1, map[]).1.Err?
    ensures var (f, r) := BackupLoop(files, faults, dir, fcs, ids, 1, map[]);
            i < |fcs| && r.error.BackupFileFailed? && r.error.target == fcs[i].targetPath && fcs[i].targetPath in files
            && (forall t :: t in copies <==> exists j :: 0 <= j < i && fcs[j].targetPath == t && t in files)
            && (forall t :: t in copies ==> Within(copies[t], dir) && copies[t] in f && f[copies[t]] == files[t])
  {
    var f := BackupLoop(files, faults, dir, fcs, ids, 1, map[]).0;
    i := BackupLoopFailsAt(files, faults, dir, fcs, ids, 1, map[]);
    var before := fcs[..i];
    assert forall j :: 0 <= j < i ==> before[j] == fcs[j];
    copies := BackupLoop(files, faults, dir, before, ids, 1, map[]).1.value;
    BackupLoopKeys(files, faults, dir, before, ids, 1, map[]);
    BackupLoopCopies(files, faults, dir, before, ids, 1, map[]);
    var n: nat :| BackedUp(f, dir, ids, n, copies);
    BackupLoopOutside(files, faults, dir, before, ids, 1, map[], fcs[i].targetPath);
    forall t | t in copies
      ensures Within(copies[t], dir) && copies[t] in f && f[copies[t]] == files[t]
    {
      var j: nat :| j < n && copies[t] == BackupPath(dir, t, ids(j));
      BackupLoopOutside(files, faults, dir, fcs, ids, 1, map[], t);
    }
  }

  /** A backup whose copy of target i fails saves no record but leaves on
      disk, inside its directory, a copy of every earlier target that existed,
      holding that target's content and mode. */
  lemma BackupFailureKeepsCopies(st: Store, projectId: string, envId: string, ids: nat -> string, at: Time)
    returns (i: nat, copies: map<Path, Path>)
    requires FreshIds(ids) && NoTargetWithin(EnvFiles(st, projectId, envId), BackupDir(st, ids(0)))
    requires CreateBackupEffect(st, projectId, envId, ids, at).result.Err?
    requires CreateBackupEffect(st, projectId, envId, ids, at).result.error.BackupFileFailed?
    ensures var e := CreateBackupEffect(st, projectId, envId, ids, at);
            var fcs := EnvFiles(st, projectId, envId);
            i < |fcs| && e.result.error.target == fcs[i].targetPath && fcs[i].targetPath in st.files
            && e.after.backups == st.backups
            && (forall t :: t in copies <==> exists j :: 0 <= j < i && fcs[j].targetPath == t && t in st.files)
            && (forall t :: t in copies ==>
                  Within(copies[t], BackupDir(st, ids(0))) && copies[t] in e.after.files
                  && e.after.files[copies[t]] == st.files[t])
  {
    var pr := LoadProject(st, projectId).value;
    var k := FirstWithId(pr.environments, envId).value;
    i, copies := BackupLoopKeepsCopies(st.files, st.faults, BackupDir(st, ids(0)), pr.environments[k].files, ids);
  }

  /** A successful backup records exactly the environment's targets that
      existed, each mapped to a copy under the backup directory that holds the
      target's content and mode. */
  lemma BackupRecordsExistingTargets(st: Store, projectId: string, envId: string, ids: nat -> string, at: Time)
    requires FreshIds(ids) && NoTargetWithin(EnvFiles(st, projectId, envId), BackupDir(st, ids(0)))
    requires CreateBackupEffect(st, projectId, envId, ids, at).result.Ok?
    ensures var after := CreateBackupEffect(st, projectId, envId, ids, at).after;
            var fcs := EnvFiles(st, projectId, envId);
            LoadBackupInfo(after, ids(0)).Ok?
            && var info := LoadBackupInfo(after, ids(0)).value;
            info.id == ids(0) && info.timestamp == at && info.projectId == projectId && info.envId == envId
            && (forall t :: t in info.files <==> exists k :: 0 <= k < |fcs| && fcs[k].targetPath == t && t in st.files)
            && (forall t :: t in info.files ==>
                  Within(info.files[t], BackupDir(st, ids(0))) && info.files[t] in after.files
                  && after.files[info.files[t]] == st.files[t])
  {
    var pr := LoadProject(st, projectId).value;
    var k := FirstWithId(pr.environments, envId).value;
    var dir := BackupDir(st, ids(0));
    var fcs := pr.environments[k].files;
    var (files, copied) := BackupLoop(st.files, st.faults, dir, fcs, ids, 1, map[]);
    BackupLoopKeys(st.files, st.faults, dir, fcs, ids, 1, map[]);
    BackupLoopCopies(st.files, st.faults, dir, fcs, ids, 1, map[]);
    var info := BackupInfo(ids(0), at, copied.value, projectId, envId);
    SaveThenLoadBackupInfo(st.(files := files), info);
    forall t | t in info.files
      ensures files[t] == st.files[t]
    {
      BackupLoopOutside(st.files, st.faults, dir, fcs, ids, 1, map[], t);
    }
  }

  // ----- rollback -----

  /** The restore loop over the backup's keys in the visiting order: each copy
      is put back onto its target; the first failure stops it. */
  function RestoreLoop(files: Files, faults: Faults, m: map<Path, Path>, order: seq<Path>): (Files, Option<(Path, Error)>)
    decreases |order|
  {
    if order == [] then (files, None)
    else
      var t := order[0];
      if t !in m then RestoreLoop(files, faults, m, order[1..])
      else
        var (f, r) := Copy(files, faults, m[t], t);
        if r.Err? then (files, Some((t, r.error)))
        else RestoreLoop(f, faults, m, order[1..])
  }

  /** One more key visited after a run of successful restores. */
  lemma {:induction false} RestoreLoopAppend(files: Files, faults: Faults, m: map<Path, Path>, order: seq<Path>, t: Path)
    requires RestoreLoop(files, faults, m, order).1.None? && t in m
    ensures var f := RestoreLoop(files, faults, m, order).0;
            var (f1, r) := Copy(f, faults, m[t], t);
            RestoreLoop(files, faults, m, order + [t]) == if r.Err? then (f, Some((t, r.error))) else (f1, None)
    decreases |order|
  {
    if order == [] {
      assert [t][1..] == [];
    } else {
      assert (order + [t])[1..] == order[1..] + [t];
      var u := order[0];
      if u !in m {
        RestoreLoopAppend(files, faults, m, order[1..], t);
      } else {
        var (f, r) := Copy(files, faults, m[u], u);
        RestoreLoopAppend(f, faults, m, order[1..], t);
      }
    }
  }

  /** Keys after a failure are never visited. */
  lemma {:induction false} RestoreLoopStops(files: Files, faults: Faults, m: map<Path, Path>, order: seq<Path>, rest: seq<Path>)
    requires RestoreLoop(files, faults, m, order).1.Some?
    ensures RestoreLoop(files, faults, m, order + rest) == RestoreLoop(files, faults, m, order)
    decreases |order|
  {
    assert (order + rest)[1..] == order[1..] + rest;
    var u := order[0];
    if u !in m {
      RestoreLoopStops(files, faults, m, order[1..], rest);
    } else {
      var (f, r) := Copy(files, faults, m[u], u);
      if r.Ok? {
        RestoreLoopStops(f, faults, m, order[1..], rest);
      }
    }
  }

  /** No copy recorded in the backup is itself a target of it. */
  ghost predicate NoAlias(m: map<Path, Path>) {
    forall t :: t in m ==> m[t] !in m
  }

  /** When no copy is a target, the restore succeeds exactly when every
      visited copy exists and every visited target is writable, and then each
      visited target holds its copy's content; nothing else changes. */
  lemma {:induction false} RestoreLoopOutcome(files: Files, faults: Faults, m: map<Path, Path>, order: seq<Path>)
    requires NoAlias(m) && NoDup(order)
    ensures var (f, failed) := RestoreLoop(files, faults, m, order);
            (failed.None? <==> forall t :: t in order && t in m ==> m[t] in files && t !in faults.readOnly)
            && (failed.None? ==>
                  (forall p :: p in f <==> p in files || (p in order && p in m))
                  && (forall t :: t in order && t in m ==> f[t] == files[m[t]])
                  && (forall p :: p in files && !(p in order && p in m) ==> f[p] == files[p]))
    decreases |order|
  {
    if order != [] {
      var t := order[0];
      var rest := order[1..];
      assert forall i :: 0 <= i < |rest| ==> rest[i] == order[i + 1];
      assert forall x :: x in order <==> x == t || x in rest;
      assert t !in rest;
      if t !in m {
        RestoreLoopOutcome(files, faults, m, rest);
      } else {
        var (f1, r) := Copy(files, faults, m[t], t);
        RestoreLoopOutcome(f1, faults, m, rest);
        forall u | u in rest && u in m
          ensures m[u] in f1 <==> m[u] in files
          ensures m[u] in files ==> f1[m[u]] == files[m[u]]
        {
          assert m[u] != t;
        }
      }
    }
  }

  /** Every target in m put back from its copy; other paths as in files. */
  ghost function Restored(files: Files, m: map<Path, Path>): Files
    requires forall t :: t in m ==> m[t] in files
  {
    map p | p in files.Keys + m.Keys :: if p in m then files[m[p]] else files[p]
  }

  /** Visiting every key of m once, the restore succeeds exactly when every
      copy exists and every target is writable, and its result depends on m
      alone. */
  lemma RestoreByMap(files: Files, faults: Faults, m: map<Path, Path>, order: seq<Path>)
    requires NoAlias(m) && Enumerates(order, m)
    ensures RestoreLoop(files, faults, m, order).1.None? <==> forall t :: t in m ==> m[t] in files && t !in faults.readOnly
    ensures RestoreLoop(files, faults, m, order).1.None? ==> RestoreLoop(files, faults, m, order).0 == Restored(files, m)
  {
    RestoreLoopOutcome(files, faults, m, order);
    if RestoreLoop(files, faults, m, order).1.None? {
      var f := RestoreLoop(files, faults, m, order).0;
      var r := Restored(files, m);
      assert forall p :: p in f <==> p in r;
      assert forall p :: p in f ==> f[p] == r[p];
    }
  }

  /** When no copy is a target, the order in which the rollback visits the
      backup's keys does not change whether the restore succeeds, nor the
      files it leaves when it does. */
  lemma RestoreOrderIrrelevant(files: Files, faults: Faults, m: map<Path, Path>, o1: seq<Path>, o2: seq<Path>)
    requires NoAlias(m) && Enumerates(o1, m) && Enumerates(o2, m)
    ensures RestoreLoop(files, faults, m, o1).1.None? == RestoreLoop(files, faults, m, o2).1.None?
    ensures RestoreLoop(files, faults, m, o1).1.None? ==> RestoreLoop(files, faults, m, o1).0 == RestoreLoop(files, faults, m, o2).0
  {
    RestoreByMap(files, faults, m, o1);
    RestoreByMap(files, faults, m, o2);
  }

  /** `RollbackFromBackup` with the keys visited in order: load the record,
      restore every copy, then clear the application state. */
  function RollbackEffect(st: Store, backupId: string, order: seq<Path>): (e: Effect<Unit>)
    ensures e.after == st.(files := e.after.files, state := e.after.state)
    ensures LoadBackupInfo(st, backupId).Err? ==> e == Effect(st, Err(LoadFailed(LoadBackupInfo(st, backupId).error)))
    ensures e.result.Ok? ==> e.after.state == Some(Parsed(EmptyAppState))
    ensures e.result.Err? && e.result.error.RestoreFailed? ==> e.after.state == st.state
  {
    match LoadBackupInfo(st, backupId)
    case Err(err) => Effect(st, Err(LoadFailed(err)))
    case Ok(info) =>
      var (files, failed) := RestoreLoop(st.files, st.faults, info.files, order);
      var st1 := st.(files := files);
      if failed.Some? then Effect(st1, Err(RestoreFailed(failed.value.0, failed.value.1)))
      else SaveAppStateEffect(st1, EmptyAppState)
  }

  // ----- the switch -----

  /** Where a switch stands once the backup and the file loop are done. */
  datatype Stage =
    | Stopped(effect: Effect<Unit>)
    | FileFailed(at: Store, project: Project, backupId: string, target: Path, cause: Error)
    | Copied(at: Store, project: Project, backupId: string)

  function SwitchStage(st: Store, projectId: string, envId: string, ids: nat -> string, backupAt: Time): (r: Stage)
    ensures r.Stopped? ==> r.effect.result.Err?
  {
    var b := CreateBackupEffect(st, projectId, envId, ids, backupAt);
    if b.result.Err? then Stopped(Effect(b.after, Err(BackupFailed(b.result.error))))
    else
      var st1 := b.after;
      match LoadProject(st1, projectId)
      case Err(err) => Stopped(Effect(st1, Err(LoadFailed(err))))
      case Ok(p) =>
        match FirstWithId(p.environments, envId)
        case None => Stopped(Effect(st1, Err(EnvironmentNotFound(envId))))
        case Some(k) =>
          var (files, failed) := SwitchFiles(st1.files, st1.faults, p.environments[k].files);
          var st2 := st1.(files := files);
          if failed.Some? then FileFailed(st2, p, b.result.value, failed.value.0, failed.value.1)
          else Copied(st2, p, b.result.value)
  }

  /** `SwitchEnvironment`; `order` is the order in which the rollback, if it
      runs, visits the backup's keys. The project is saved as it was loaded:
      the switch time is set on a loop copy of the environment and never
      reaches it. */
  function SwitchEffect(st: Store, projectId: string, envId: string, ids: nat -> string, backupAt: Time, now: Time,
                        order: seq<Path>): (e: Effect<Unit>)
  {
    match SwitchStage(st, projectId, envId, ids, backupAt)
    case Stopped(eff) => eff
    case FileFailed(st2, _, backupId, target, cause) =>
      Effect(RollbackEffect(st2, backupId, order).after, Err(SwitchFileFailed(target, cause)))
    case Copied(st2, p, backupId) =>
      var saved := SaveProjectEffect(st2, p);
      if saved.result.Err? then Effect(saved.after, Err(saved.result.error))
      else SaveAppStateEffect(saved.after, AppState(projectId, envId, Some(now), backupId))
  }

  /** The rollback order fits the backup that the rollback loads. */
  ghost predicate OrderFits(st: Store, projectId: string, envId: string, ids: nat -> string, backupAt: Time, order: seq<Path>) {
    match SwitchStage(st, projectId, envId, ids, backupAt)
    case FileFailed(st2, _, backupId, _, _) =>
      LoadBackupInfo(st2, backupId).Ok? ==> Enumerates(order, LoadBackupInfo(st2, backupId).value.files)
    case _ => order == []
  }

  /** A switch that got past the backup: the backup succeeded under ids(0), and
      the stage holds the project as it was and the files after the switch loop. */
  lemma StageFacts(st: Store, projectId: string, envId: string, ids: nat -> string, backupAt: Time)
    requires !SwitchStage(st, projectId, envId, ids, backupAt).Stopped?
    ensures var b := CreateBackupEffect(st, projectId, envId, ids, backupAt);
            var stage := SwitchStage(st, projectId, envId, ids, backupAt);
            var sw := SwitchFiles(b.after.files, st.faults, EnvFiles(st, projectId, envId));
            b.result == Ok(ids(0)) && stage.backupId == ids(0)
            && stage.at == b.after.(files := sw.0)
            && LoadProject(st, projectId) == Ok(stage.project)
            && (stage.FileFailed? <==> sw.1.Some?)
            && (stage.FileFailed? ==> (stage.target, stage.cause) == sw.1.value)
  {
  }

  /** A failed backup (unknown project or environment included) aborts the
      switch before any target is written: only the new backup directory can
      have changed. */
  lemma BackupFailureWritesNoTarget(st: Store, projectId: string, envId: string, ids: nat -> string, backupAt: Time, now: Time,
                                    order: seq<Path>, p: Path)
    requires CreateBackupEffect(st, projectId, envId, ids, backupAt).result.Err?
    requires !Within(p, BackupDir(st, ids(0)))
    ensures var e := SwitchEffect(st, projectId, envId, ids, backupAt, now, order);
            e.result.Err? && e.result.error.BackupFailed?
            && e.after.projects == st.projects && e.after.state == st.state && e.after.backups == st.backups
            && (p in e.after.files <==> p in st.files) && (p in st.files ==> e.after.files[p] == st.files[p])
  {
    BackupOnlyWritesItsDirectory(st, projectId, envId, ids, backupAt, p);
  }

  /** A successful switch records the new state, saves the project unchanged,
      and leaves every target with its source's bytes and mode, as long as no
      mapping touches one of the store's own documents (the later saves would
      overwrite such a target). */
  lemma SwitchSuccess(st: Store, projectId: string, envId: string, ids: nat -> string, backupAt: Time, now: Time, order: seq<Path>)
    requires SwitchEffect(st, projectId, envId, ids, backupAt, now, order).result.Ok?
    ensures var after := SwitchEffect(st, projectId, envId, ids, backupAt, now, order).after;
            LoadAppState(after) == Ok(AppState(projectId, envId, Some(now), ids(0)))
            && LoadProject(after, projectId) == LoadProject(st, projectId)
    ensures var after := SwitchEffect(st, projectId, envId, ids, backupAt, now, order).after;
            var fcs := EnvFiles(st, projectId, envId);
            UniqueTargets(fcs) && SourcesNotTargets(fcs) && ClearOfStore(st, fcs)
            && (forall k :: 0 <= k < |fcs| ==> !Within(fcs[k].sourcePath, BackupDir(st, ids(0)))) ==>
              forall k :: 0 <= k < |fcs| ==>
                fcs[k].sourcePath in st.files && fcs[k].targetPath in after.files
                && after.files[fcs[k].targetPath] == st.files[fcs[k].sourcePath]
  {
    var stage := SwitchStage(st, projectId, envId, ids, backupAt);
    assert stage.Copied?;
    StageFacts(st, projectId, envId, ids, backupAt);
    var b := CreateBackupEffect(st, projectId, envId, ids, backupAt);
    var fcs := EnvFiles(st, projectId, envId);
    var st2 := stage.at;
    var p := stage.project;
    SaveThenLoadProject(st2, p);
    if p.id != projectId {
      SaveProjectKeepsOthers(st2, p, projectId);
    }
    if UniqueTargets(fcs) && SourcesNotTargets(fcs) && (forall j :: 0 <= j < |fcs| ==> !Within(fcs[j].sourcePath, BackupDir(st, ids(0)))) {
      SwitchFilesDeliver(b.after.files, st.faults, fcs);
      forall j | 0 <= j < |fcs|
        ensures fcs[j].sourcePath in st.files && b.after.files[fcs[j].sourcePath] == st.files[fcs[j].sourcePath]
      {
        BackupOnlyWritesItsDirectory(st, projectId, envId, ids, backupAt, fcs[j].sourcePath);
      }
    }
  }

  /** A switch that fails at a file reports that file's target. */
  lemma SwitchFailureNamesTarget(st: Store, projectId: string, envId: string, ids: nat -> string, backupAt: Time, now: Time,
                                 order: seq<Path>)
    requires SwitchStage(st, projectId, envId, ids, backupAt).FileFailed?
    ensures var stage := SwitchStage(st, projectId, envId, ids, backupAt);
            var fcs := EnvFiles(st, projectId, envId);
            SwitchEffect(st, projectId, envId, ids, backupAt, now, order)
              == Effect(RollbackEffect(stage.at, stage.backupId, order).after, Err(SwitchFileFailed(stage.target, stage.cause)))
            && exists k :: 0 <= k < |fcs| && fcs[k].targetPath == stage.target
  {
    StageFacts(st, projectId, envId, ids, backupAt);
    var b := CreateBackupEffect(st, projectId, envId, ids, backupAt);
    var first := SwitchFilesFirstFailure(b.after.files, st.faults, EnvFiles(st, projectId, envId));
  }

  /** The restore half of the round trip, on files alone: copies that the
      switch did not touch bring every backed-up target back. */
  lemma RestoreUndoesSwitch(before: Files, backedUp: Files, switched: Files, faults: Faults, dir: Path,
                            m: map<Path, Path>, order: seq<Path>)
    requires Enumerates(order, m)
    requires forall t :: t in m ==> !Within(t, dir) && Within(m[t], dir) && m[t] in backedUp && t in before
                                    && backedUp[m[t]] == before[t]
    requires forall p :: Within(p, dir) ==> (p in switched <==> p in backedUp) && (p in backedUp ==> switched[p] == backedUp[p])
    requires RestoreLoop(switched, faults, m, order).1.None?
    ensures var f := RestoreLoop(switched, faults, m, order).0;
            (forall t :: t in m ==> t in f && f[t] == before[t])
            && (forall q :: q !in m ==> (q in f <==> q in switched) && (q in switched ==> f[q] == switched[q]))
  {
    assert NoAlias(m);
    RestoreLoopOutcome(switched, faults, m, order);
  }

  /** If the rollback after a failed switch succeeds, every target that
      existed before the switch is back to its old bytes and mode, and the
      application state is empty. */
  lemma SwitchFailureRestores(st: Store, projectId: string, envId: string, ids: nat -> string, backupAt: Time, now: Time,
                              order: seq<Path>)
    requires FreshIds(ids) && NoTargetWithin(EnvFiles(st, projectId, envId), BackupDir(st, ids(0)))
    requires OrderFits(st, projectId, envId, ids, backupAt, order)
    requires SwitchStage(st, projectId, envId, ids, backupAt).FileFailed?
    requires RollbackEffect(SwitchStage(st, projectId, envId, ids, backupAt).at, ids(0), order).result.Ok?
    ensures var fcs := EnvFiles(st, projectId, envId);
            var after := SwitchEffect(st, projectId, envId, ids, backupAt, now, order).after;
            after.state == Some(Parsed(EmptyAppState))
            && (ClearOfStore(st, fcs) ==>
                  forall k :: 0 <= k < |fcs| && fcs[k].targetPath in st.files ==>
                    fcs[k].targetPath in after.files && after.files[fcs[k].targetPath] == st.files[fcs[k].targetPath])
  {
    var stage := SwitchStage(st, projectId, envId, ids, backupAt);
    StageFacts(st, projectId, envId, ids, backupAt);
    SwitchFailureNamesTarget(st, projectId, envId, ids, backupAt, now, order);
    var b := CreateBackupEffect(st, projectId, envId, ids, backupAt);
    var fcs := EnvFiles(st, projectId, envId);
    var dir := BackupDir(st, ids(0));
    BackupRecordsExistingTargets(st, projectId, envId, ids, backupAt);
    var info := LoadBackupInfo(b.after, ids(0)).value;
    var m := info.files;
    var st2 := stage.at;
    assert LoadBackupInfo(st2, ids(0)) == Ok(info);
    assert Enumerates(order, m);
    forall p | Within(p, dir)
      ensures (p in st2.files <==> p in b.after.files) && (p in b.after.files ==> st2.files[p] == b.after.files[p])
    {
      SwitchFilesOnlyTargets(b.after.files, st.faults, fcs, p);
    }
    RestoreUndoesSwitch(st.files, b.after.files, st2.files, st.faults, dir, m, order);
    forall j | 0 <= j < |fcs| && fcs[j].targetPath in st.files
      ensures fcs[j].targetPath in m
    {
    }
  }

  /** The round trip of a successful switch: rolling back its backup puts
      every target that existed before the switch back to its old bytes and
      mode, leaves a target that did not exist with what the switch wrote,
      and clears the application state. */
  lemma SwitchThenRollbackRestores(st: Store, projectId: string, envId: string, ids: nat -> string, backupAt: Time,
                                   now: Time, order: seq<Path>, rollbackOrder: seq<Path>)
    requires FreshIds(ids) && NoTargetWithin(EnvFiles(st, projectId, envId), BackupDir(st, ids(0)))
    requires SwitchEffect(st, projectId, envId, ids, backupAt, now, order).result.Ok?
    requires var after := SwitchEffect(st, projectId, envId, ids, backupAt, now, order).after;
             LoadBackupInfo(after, ids(0)).Ok? ==> Enumerates(rollbackOrder, LoadBackupInfo(after, ids(0)).value.files)
    requires RollbackEffect(SwitchEffect(st, projectId, envId, ids, backupAt, now, order).after, ids(0), rollbackOrder).result.Ok?
    ensures var fcs := EnvFiles(st, projectId, envId);
            var after := SwitchEffect(st, projectId, envId, ids, backupAt, now, order).after;
            var back := RollbackEffect(after, ids(0), rollbackOrder).after;
            back.state == Some(Parsed(EmptyAppState))
            && (ClearOfStore(st, fcs) ==>
                  (forall k :: 0 <= k < |fcs| && fcs[k].targetPath in st.files ==>
                     fcs[k].targetPath in back.files && back.files[fcs[k].targetPath] == st.files[fcs[k].targetPath])
                  && (forall k :: 0 <= k < |fcs| && fcs[k].targetPath !in st.files ==>
                     (fcs[k].targetPath in back.files <==> fcs[k].targetPath in after.files)
                     && (fcs[k].targetPath in after.files ==> back.files[fcs[k].targetPath] == after.files[fcs[k].targetPath])))
  {
    var stage := SwitchStage(st, projectId, envId, ids, backupAt);
    assert stage.Copied?;
    StageFacts(st, projectId, envId, ids, backupAt);
    var b := CreateBackupEffect(st, projectId, envId, ids, backupAt);
    var fcs := EnvFiles(st, projectId, envId);
    var dir := BackupDir(st, ids(0));
    BackupRecordsExistingTargets(st, projectId, envId, ids, backupAt);
    var info := LoadBackupInfo(b.after, ids(0)).value;
    var m := info.files;
    var st2 := stage.at;
    var after := SwitchEffect(st, projectId, envId, ids, backupAt, now, order).after;
    assert after.files == st2.files && after.backups == st2.backups;
    assert LoadBackupInfo(after, ids(0)) == Ok(info);
    forall q | Within(q, dir)
      ensures (q in st2.files <==> q in b.after.files) && (q in b.after.files ==> st2.files[q] == b.after.files[q])
    {
      SwitchFilesOnlyTargets(b.after.files, st.faults, fcs, q);
    }
    RestoreUndoesSwitch(st.files, b.after.files, after.files, st.faults, dir, m, rollbackOrder);
  }

  // ----- validation and the file-mapping registry -----

  /** `ValidateFileConfig`: both paths non-empty, the source exists, and the
      target's directory (unless it is ".") can be created. */
  function ValidateFileConfig(st: Store, fc: FileConfig): (r: Result<Unit>)
    ensures r.Ok? <==> fc.sourcePath != "" && fc.targetPath != "" && fc.sourcePath in st.files
                       && (ParentDir(fc.targetPath) == "." || ParentDir(fc.targetPath) !in st.faults.badDirs)
    ensures fc.sourcePath == "" ==> r == Err(EmptySourcePath)
    ensures fc.sourcePath != "" && fc.targetPath == "" ==> r == Err(EmptyTargetPath)
    ensures fc.sourcePath != "" && fc.targetPath != "" && fc.sourcePath !in st.files ==> r == Err(SourceMissing(fc.sourcePath))
  {
    if fc.sourcePath == "" then Err(EmptySourcePath)
    else if fc.targetPath == "" then Err(EmptyTargetPath)
    else if fc.sourcePath !in st.files then Err(SourceMissing(fc.sourcePath))
    else
      var dir := ParentDir(fc.targetPath);
      if dir != "." && dir in st.faults.badDirs then Err(MkdirFailed(dir)) else Ok(Unit)
  }

  predicate TargetUsed(fcs: seq<FileConfig>, target: Path) {
    exists i :: 0 <= i < |fcs| && fcs[i].targetPath == target
  }

  /** The project with fc appended to environment k, which is stamped with now. */
  function AddFileTo(p: Project, k: nat, fc: FileConfig, now: Time): (r: Project)
    requires k < |p.environments|
    ensures r.id == p.id && r.name == p.name && r.updatedAt == now
    ensures |r.environments| == |p.environments|
    ensures forall i :: 0 <= i < |p.environments| && i != k ==> r.environments[i] == p.environments[i]
    ensures r.environments[k].files == p.environments[k].files + [fc]
    ensures r.environments[k] == p.environments[k].(files := r.environments[k].files, updatedAt := now)
  {
    var env := p.environments[k];
    p.(environments := p.environments[k := env.(files := env.files + [fc], updatedAt := now)], updatedAt := now)
  }

  /** `AddFileConfig`: validate, load the project by id, find the environment
      by id, refuse a target already mapped there, append and save. */
  function AddFileConfigEffect(st: Store, projectId: string, envId: string, source: Path, target: Path,
                               description: string, newId: string, now: Time): (e: Effect<Unit>)
    ensures e.result.Err? ==> e.after == st
    ensures e.result.Ok? ==>
              var fc := FileConfig(newId, source, target, "", description);
              ValidateFileConfig(st, fc).Ok? && LoadProject(st, projectId).Ok?
              && var p := LoadProject(st, projectId).value;
              FirstWithId(p.environments, envId).Some?
              && var k := FirstWithId(p.environments, envId).value;
              !TargetUsed(p.environments[k].files, target)
              && e.after == SaveProjectEffect(st, AddFileTo(p, k, fc, now)).after
    ensures var fc := FileConfig(newId, source, target, "", description);
            ValidateFileConfig(st, fc).Err? ==> e == Effect(st, Err(ValidateFileConfig(st, fc).error))
    ensures ValidateFileConfig(st, FileConfig(newId, source, target, "", description)).Ok? && LoadProject(st, projectId).Err? ==>
              e == Effect(st, Err(LoadFailed(LoadProject(st, projectId).error)))
    ensures ValidateFileConfig(st, FileConfig(newId, source, target, "", description)).Ok? && LoadProject(st, projectId).Ok?
            && FirstWithId(LoadProject(st, projectId).value.environments, envId).None? ==>
              e == Effect(st, Err(EnvironmentNotFound(envId)))
    // A valid mapping for a found environment is refused exactly when its
    // target is already mapped there; otherwise the outcome is the save's.
    ensures var fc := FileConfig(newId, source, target, "", description);
            ValidateFileConfig(st, fc).Ok? && LoadProject(st, projectId).Ok? ==>
            var p := LoadProject(st, projectId).value;
            FirstWithId(p.environments, envId).Some? ==>
            var k := FirstWithId(p.environments, envId).value;
            (TargetUsed(p.environments[k].files, target) ==> e == Effect(st, Err(TargetPathTaken(target))))
            && (!TargetUsed(p.environments[k].files, target) ==> e == SaveProjectEffect(st, AddFileTo(p, k, fc, now)))
  {
    var fc := FileConfig(newId, source, target, "", description);
    match ValidateFileConfig(st, fc)
    case Err(err) => Effect(st, Err(err))
    case Ok(_) =>
      match LoadProject(st, projectId)
      case Err(err) => Effect(st, Err(LoadFailed(err)))
      case Ok(p) =>
        match FirstWithId(p.environments, envId)
        case None => Effect(st, Err(EnvironmentNotFound(envId)))
        case Some(k) =>
          if TargetUsed(p.environments[k].files, target) then Effect(st, Err(TargetPathTaken(target)))
          else SaveProjectEffect(st, AddFileTo(p, k, fc, now))
  }

  /** The first file mapping with this id. */
  function FirstFileWithId(fcs: seq<FileConfig>, id: string): (r: Option<nat>)
    ensures r.Some? ==> r.value < |fcs| && fcs[r.value].id == id
    ensures r.Some? ==> forall k :: 0 <= k < r.value ==> fcs[k].id != id
    ensures r.None? <==> forall k :: 0 <= k < |fcs| ==> fcs[k].id != id
  {
    if fcs == [] then None
    else if fcs[0].id == id then Some(0)
    else match FirstFileWithId(fcs[1..], id)
      case None => None
      case Some(k) => Some(k + 1)
  }

  /** The project with mapping j of environment k spliced out. */
  function RemoveFileFrom(p: Project, k: nat, j: nat, now: Time): (r: Project)
    requires k < |p.environments| && j < |p.environments[k].files|
    ensures r.id == p.id && r.name == p.name && r.updatedAt == now
    ensures |r.environments| == |p.environments|
    ensures forall i :: 0 <= i < |p.environments| && i != k ==> r.environments[i] == p.environments[i]
    ensures var old_ := p.environments[k].files;
            var new_ := r.environments[k].files;
            |new_| == |old_| - 1
            && (forall i :: 0 <= i < j ==> new_[i] == old_[i])
            && (forall i :: j <= i < |new_| ==> new_[i] == old_[i + 1])
    ensures r.environments[k] == p.environments[k].(files := r.environments[k].files, updatedAt := now)
  {
    var env := p.environments[k];
    var files := env.files[..j] + env.files[j + 1..];
    p.(environments := p.environments[k := env.(files := files, updatedAt := now)], updatedAt := now)
  }

  /** `RemoveFileConfig`: load the project by id, find the environment and the mapping by id, splice it out and save. */
  function RemoveFileConfigEffect(st: Store, projectId: string, envId: string, fileId: string, now: Time): (e: Effect<Unit>)
    ensures e.result.Err? ==> e.after == st
    ensures LoadProject(st, projectId).Ok? && FirstWithId(LoadProject(st, projectId).value.environments, envId).None? ==>
              e.result == Err(EnvironmentNotFound(envId))
    ensures e.result.Ok? ==>
              LoadProject(st, projectId).Ok?
              && var p := LoadProject(st, projectId).value;
              FirstWithId(p.environments, envId).Some?
              && var k := FirstWithId(p.environments, envId).value;
              FirstFileWithId(p.environments[k].files, fileId).Some?
              && e.after == SaveProjectEffect(st, RemoveFileFrom(p, k, FirstFileWithId(p.environments[k].files, fileId).value, now)).after
    ensures LoadProject(st, projectId).Err? ==> e == Effect(st, Err(LoadFailed(LoadProject(st, projectId).error)))
    // In a found environment, an absent mapping id is refused; a present one
    // is spliced out and the outcome is the save's.
    ensures LoadProject(st, projectId).Ok? ==>
            var p := LoadProject(st, projectId).value;
            FirstWithId(p.environments, envId).Some? ==>
            var k := FirstWithId(p.environments, envId).value;
            (FirstFileWithId(p.environments[k].files, fileId).None? ==> e == Effect(st, Err(FileConfigNotFound(fileId))))
            && (FirstFileWithId(p.environments[k].files, fileId).Some? ==>
                  e == SaveProjectEffect(st, RemoveFileFrom(p, k, FirstFileWithId(p.environments[k].files, fileId).value, now)))
  {
    match LoadProject(st, projectId)
    case Err(err) => Effect(st, Err(LoadFailed(err)))
    case Ok(p) =>
      match FirstWithId(p.environments, envId)
      case None => Effect(st, Err(EnvironmentNotFound(envId)))
      case Some(k) =>
        match FirstFileWithId(p.environments[k].files, fileId)
        case None => Effect(st, Err(FileConfigNotFound(fileId)))
        case Some(j) => SaveProjectEffect(st, RemoveFileFrom(p, k, j, now))
  }

  ghost predicate ProjectTargetsUnique(p: Project) {
    forall k :: 0 <= k < |p.environments| ==> UniqueTargets(p.environments[k].files)
  }

  /** In every listed project, no environment maps one target twice. */
  ghost predicate TargetsUnique(st: Store) {
    forall e :: e in st.projects && Listed(e) ==> ProjectTargetsUnique(e.body.value)
  }

  lemma SaveKeepsTargetsUnique(st: Store, q: Project)
    requires WellFormed(st) && TargetsUnique(st) && ProjectTargetsUnique(q)
    ensures TargetsUnique(SaveProjectEffect(st, q).after)
  {
    var eff := SaveProjectEffect(st, q);
    if eff.result.Ok? {
      forall e | e in eff.after.projects
        ensures e == Entry(DocName(q.id), Parsed(q)) || e in st.projects
      {
        PutMembers(st.projects, DocName(q.id), Parsed(q), e);
      }
    }
  }

  lemma LoadedIsListed(st: Store, projectId: string)
    requires LoadProject(st, projectId).Ok?
    ensures Entry(DocName(projectId), Parsed(LoadProject(st, projectId).value)) in st.projects
    ensures Listed(Entry(DocName(projectId), Parsed(LoadProject(st, projectId).value)))
  {
    DocNameIsJson(projectId);
  }

  /** Adding a mapping keeps targets unique in every environment. */
  lemma AddFileConfigKeepsTargetsUnique(st: Store, projectId: string, envId: string, source: Path, target: Path,
                                        description: string, newId: string, now: Time)
    requires WellFormed(st) && TargetsUnique(st)
    ensures TargetsUnique(AddFileConfigEffect(st, projectId, envId, source, target, description, newId, now).after)
  {
    var e := AddFileConfigEffect(st, projectId, envId, source, target, description, newId, now);
    if e.result.Ok? {
      var p := LoadProject(st, projectId).value;
      var k := FirstWithId(p.environments, envId).value;
      var q := AddFileTo(p, k, FileConfig(newId, source, target, "", description), now);
      LoadedIsListed(st, projectId);
      assert ProjectTargetsUnique(p);
      forall i | 0 <= i < |q.environments|
        ensures UniqueTargets(q.environments[i].files)
      {
        if i == k {
          var fs := q.environments[k].files;
          assert UniqueTargets(p.environments[k].files);
          forall a, b | 0 <= a < b < |fs|
            ensures fs[a].targetPath != fs[b].targetPath
          {
            if b == |fs| - 1 {
              assert fs[a] == p.environments[k].files[a];
            } else {
              assert fs[a] == p.environments[k].files[a] && fs[b] == p.environments[k].files[b];
            }
          }
        }
      }
      SaveKeepsTargetsUnique(st, q);
    }
  }

  /** Removing a mapping keeps targets unique in every environment. */
  lemma RemoveFileConfigKeepsTargetsUnique(st: Store, projectId: string, envId: string, fileId: string, now: Time)
    requires WellFormed(st) && TargetsUnique(st)
    ensures TargetsUnique(RemoveFileConfigEffect(st, projectId, envId, fileId, now).after)
  {
    var e := RemoveFileConfigEffect(st, projectId, envId, fileId, now);
    if e.result.Ok? {
      var p := LoadProject(st, projectId).value;
      var k := FirstWithId(p.environments, envId).value;
      var j := FirstFileWithId(p.environments[k].files, fileId).value;
      var q := RemoveFileFrom(p, k, j, now);
      LoadedIsListed(st, projectId);
      assert ProjectTargetsUnique(p);
      forall i | 0 <= i < |q.environments|
        ensures UniqueTargets(q.environments[i].files)
      {
        if i == k {
          var fs := q.environments[k].files;
          var os := p.environments[k].files;
          assert UniqueTargets(os);
          forall a, b | 0 <= a < b < |fs|
            ensures fs[a].targetPath != fs[b].targetPath
          {
            var a' := if a < j then a else a + 1;
            var b' := if b < j then b else b + 1;
            assert fs[a] == os[a'] && fs[b] == os[b'];
          }
        }
      }
      SaveKeepsTargetsUnique(st, q);
    }
  }

  // ----- the manager -----

  /** The index loop `for i, env := range envs { if env.ID == id ... }`: the
      first environment with this id, or -1. */
  method IndexOfEnvironment(envs: seq<Environment>, id: string) returns (k: int)
    ensures FirstWithId(envs, id).None? ==> k == -1
    ensures FirstWithId(envs, id).Some? ==> k == FirstWithId(envs, id).value
  {
    k := 0;
    while k < |envs|
      invariant 0 <= k <= |envs|
      invariant forall j :: 0 <= j < k ==> envs[j].id != id
    {
      if envs[k].id == id {
        return;
      }
      k := k + 1;
    }
    k := -1;
  }

  /** The first file mapping with this id, or -1. */
  method IndexOfFile(fcs: seq<FileConfig>, id: string) returns (k: int)
    ensures FirstFileWithId(fcs, id).None? ==> k == -1
    ensures FirstFileWithId(fcs, id).Some? ==> k == FirstFileWithId(fcs, id).value
  {
    k := 0;
    while k < |fcs|
      invariant 0 <= k <= |fcs|
      invariant forall j :: 0 <= j < k ==> fcs[j].id != id
    {
      if fcs[k].id == id {
        return;
      }
      k := k + 1;
    }
    k := -1;
  }

  /** The duplicate-target scan of `AddFileConfig`. */
  method HasTarget(fcs: seq<FileConfig>, target: Path) returns (b: bool)
    ensures b <==> TargetUsed(fcs, target)
  {
    var i := 0;
    while i < |fcs|
      invariant 0 <= i <= |fcs|
      invariant forall j :: 0 <= j < i ==> fcs[j].targetPath != target
    {
      if fcs[i].targetPath == target {
        return true;
      }
      i := i + 1;
    }
    b := false;
  }

  /** The file manager; every operation works on the one store it holds. */
  class Manager {
    const storage: Storage

    constructor(storage: Storage)
      ensures this.storage == storage
    {
      this.storage := storage;
    }

    /** `copyFile(src, dst)`. */
    method CopyFile(src: Path, dst: Path) returns (r: Result<Unit>)
      requires storage.Valid()
      modifies storage
      ensures storage.Valid()
      ensures storage.View() == old(storage.View()).(files := Copy(old(storage.files), storage.faults, src, dst).0)
      ensures r == Copy(old(storage.files), storage.faults, src, dst).1
    {
      if src !in storage.files {
        return Err(OpenFailed(src));
      }
      if dst in storage.faults.readOnly {
        return Err(CreateFailed(dst));
      }
      var data := storage.files[src];
      if src == dst {
        // os.Create truncated the file before io.Copy read it
        data := FileData([], data.mode);
      }
      storage.files := storage.files[dst := data];
      r := Ok(Unit);
    }

    /** `switchFile(fc)`. */
    method SwitchFile(fc: FileConfig) returns (r: Result<Unit>)
      requires storage.Valid()
      modifies storage
      ensures storage.Valid()
      ensures storage.View() == old(storage.View()).(files := SwitchOne(old(storage.files), storage.faults, fc).0)
      ensures r == SwitchOne(old(storage.files), storage.faults, fc).1
    {
      if fc.sourcePath !in storage.files {
        return Err(SourceMissing(fc.sourcePath));
      }
      var made := MkdirAll(storage.faults, ParentDir(fc.targetPath));
      if made.Err? {
        return Err(made.error);
      }
      r := CopyFile(fc.sourcePath, fc.targetPath);
    }

    /** `CreateBackup(projectId, envId)`; `ids` stands for the uuid generator
        and `at` for the clock. */
    method CreateBackup(projectId: string, envId: string, ids: nat -> string, at: Time) returns (r: Result<string>)
      requires storage.Valid()
      modifies storage
      ensures storage.Valid()
      ensures storage.View() == CreateBackupEffect(old(storage.View()), projectId, envId, ids, at).after
      ensures r == CreateBackupEffect(old(storage.View()), projectId, envId, ids, at).result
    {
      var loaded := LoadProject(storage.View(), projectId);
      if loaded.Err? {
        return Err(loaded.error);
      }
      var project := loaded.value;
      var k := IndexOfEnvironment(project.environments, envId);
      if k < 0 {
        return Err(EnvironmentNotFound(envId));
      }
      var backupId := ids(0);
      var dir := storage.backupRoot + "/" + backupId;
      var made := MkdirAll(storage.faults, dir);
      if made.Err? {
        return Err(made.error);
      }
      ghost var st0 := storage.View();
      var fcs := project.environments[k].files;
      var copied: map<Path, Path> := map[];
      var next: nat := 1;
      var i := 0;
      while i < |fcs|
        invariant 0 <= i <= |fcs|
        invariant storage.Valid()
        invariant storage.View() == st0.(files := storage.files)
        invariant BackupLoop(st0.files, st0.faults, dir, fcs, ids, 1, map[])
                  == BackupLoop(storage.files, st0.faults, dir, fcs[i..], ids, next, copied)
      {
        assert fcs[i..][1..] == fcs[i + 1..];
        var target := fcs[i].targetPath;
        if target in storage.files {
          var path := BackupPath(dir, target, ids(next));
          var c := CopyFile(target, path);
          if c.Err? {
            return Err(BackupFileFailed(target, c.error));
          }
          copied := copied[target := path];
          next := next + 1;
        }
        i := i + 1;
      }
      var saved := storage.SaveBackupInfo(BackupInfo(backupId, at, copied, projectId, envId));
      if saved.Err? {
        return Err(saved.error);
      }
      r := Ok(backupId);
    }

    /** `RollbackFromBackup(backupId)`. The keys are visited in an order the
        method chooses, as a Go map range does; `order` is that order. */
    method RollbackFromBackup(backupId: string) returns (r: Result<Unit>, ghost order: seq<Path>)
      requires storage.Valid()
      modifies storage
      ensures storage.Valid()
      ensures LoadBackupInfo(old(storage.View()), backupId).Ok? ==>
                Enumerates(order, LoadBackupInfo(old(storage.View()), backupId).value.files)
      ensures storage.View() == RollbackEffect(old(storage.View()), backupId, order).after
      ensures r == RollbackEffect(old(storage.View()), backupId, order).result
    {
      order := [];
      var loaded := LoadBackupInfo(storage.View(), backupId);
      if loaded.Err? {
        return Err(LoadFailed(loaded.error)), order;
      }
      var m := loaded.value.files;
      ghost var st0 := storage.View();
      var todo := m.Keys;
      while todo != {}
        invariant todo <= m.Keys
        invariant forall t :: t in order <==> t in m.Keys - todo
        invariant NoDup(order)
        invariant storage.Valid()
        invariant storage.View() == st0.(files := storage.files)
        invariant RestoreLoop(st0.files, st0.faults, m, order) == (storage.files, None)
        decreases |todo|
      {
        var t :| t in todo;
        RestoreLoopAppend(st0.files, st0.faults, m, order, t);
        NoDupConcat(order, [t]);
        var c := CopyFile(m[t], t);
        if c.Err? {
          ghost var rest := SetToSeq(todo - {t});
          RestoreLoopStops(st0.files, st0.faults, m, order + [t], rest);
          NoDupConcat(order + [t], rest);
          order := order + [t] + rest;
          return Err(RestoreFailed(t, c.error)), order;
        }
        order := order + [t];
        todo := todo - {t};
      }
      r := storage.SaveAppState(EmptyAppState);
    }

    /** `SwitchEnvironment(projectId, envId)`; `now` is the switch time. The
        rollback's own result is discarded. The switch time is written into
        a copy of the environment only, so the project is saved as loaded. */
    method SwitchEnvironment(projectId: string, envId: string, ids: nat -> string, backupAt: Time, now: Time)
      returns (r: Result<Unit>, ghost order: seq<Path>)
      requires storage.Valid()
      modifies storage
      ensures storage.Valid()
      ensures OrderFits(old(storage.View()), projectId, envId, ids, backupAt, order)
      ensures storage.View() == SwitchEffect(old(storage.View()), projectId, envId, ids, backupAt, now, order).after
      ensures r == SwitchEffect(old(storage.View()), projectId, envId, ids, backupAt, now, order).result
    {
      order := [];
      var b := CreateBackup(projectId, envId, ids, backupAt);
      if b.Err? {
        return Err(BackupFailed(b.error)), order;
      }
      var backupId := b.value;
      var project;
      match LoadProject(storage.View(), projectId) {
        case Err(e) =>
          return Err(LoadFailed(e)), order;
        case Ok(p) =>
          project := p;
      }
      var k := IndexOfEnvironment(project.environments, envId);
      if k < 0 {
        return Err(EnvironmentNotFound(envId)), order;
      }
      var env := project.environments[k];
      ghost var st1 := storage.View();
      var i := 0;
      while i < |env.files|
        invariant 0 <= i <= |env.files|
        invariant storage.Valid()
        invariant storage.View() == st1.(files := storage.files)
        invariant SwitchFiles(st1.files, st1.faults, env.files) == SwitchFiles(storage.files, st1.faults, env.files[i..])
      {
        assert env.files[i..][1..] == env.files[i + 1..];
        var fc := env.files[i];
        var s := SwitchFile(fc);
        if s.Err? {
          var rolledBack;
          rolledBack, order := RollbackFromBackup(backupId);
          return Err(SwitchFileFailed(fc.targetPath, s.error)), order;
        }
        i := i + 1;
      }
      env := env.(lastSwitchAt := Some(now));
      var saved := storage.SaveProject(project);
      if saved.Err? {
        return Err(saved.error), order;
      }
      r := storage.SaveAppState(AppState(projectId, envId, Some(now), backupId));
    }

    /** `GetCurrentState`. */
    method GetCurrentState() returns (r: Result<AppState>)
      ensures r == LoadAppState(storage.View())
    {
      r := LoadAppState(storage.View());
    }

    /** `AddFileConfig`; `newId` is the new mapping's uuid and `now` the clock. */
    method AddFileConfig(projectId: string, envId: string, source: Path, target: Path, description: string,
                         newId: string, now: Time) returns (r: Result<Unit>)
      requires storage.Valid()
      modifies storage
      ensures storage.Valid()
      ensures storage.View() == AddFileConfigEffect(old(storage.View()), projectId, envId, source, target, description, newId, now).after
      ensures r == AddFileConfigEffect(old(storage.View()), projectId, envId, source, target, description, newId, now).result
    {
      var fc := FileConfig(newId, source, target, "", description);
      var valid := ValidateFileConfig(storage.View(), fc);
      if valid.Err? {
        return valid;
      }
      var loaded := LoadProject(storage.View(), projectId);
      if loaded.Err? {
        return Err(LoadFailed(loaded.error));
      }
      var project := loaded.value;
      var k := IndexOfEnvironment(project.environments, envId);
      if k < 0 {
        return Err(EnvironmentNotFound(envId));
      }
      var taken := HasTarget(project.environments[k].files, target);
      if taken {
        return Err(TargetPathTaken(target));
      }
      r := storage.SaveProject(AddFileTo(project, k, fc, now));
    }

    /** `RemoveFileConfig`. */
    method RemoveFileConfig(projectId: string, envId: string, fileId: string, now: Time) returns (r: Result<Unit>)
      requires storage.Valid()
      modifies storage
      ensures storage.Valid()
      ensures storage.View() == RemoveFileConfigEffect(old(storage.View()), projectId, envId, fileId, now).after
      ensures r == RemoveFileConfigEffect(old(storage.View()), projectId, envId, fileId, now).result
    {
      var loaded := LoadProject(storage.View(), projectId);
      if loaded.Err? {
        return Err(LoadFailed(loaded.error));
      }
      var project := loaded.value;
      var k := IndexOfEnvironment(project.environments, envId);
      if k < 0 {
        return Err(EnvironmentNotFound(envId));
      }
      var j := IndexOfFile(project.environments[k].files, fileId);
      if j < 0 {
        return Err(FileConfigNotFound(fileId));
      }
      r := storage.SaveProject(RemoveFileFrom(project, k, j, now));
    }

    /** `CleanupOldBackups(keepCount)`: handed to the store. */
    method CleanupOldBackups(keepCount: int) returns (r: Result<Unit>, ghost ordered: seq<BackupInfo>)
      requires keepCount >= 0
      requires storage.Valid()
      modifies storage
      ensures storage.Valid()
      ensures r == Ok(Unit)
      ensures multiset(ordered) == multiset(ListedBackups(old(storage.View())))
      ensures |ordered| > keepCount ==> NewestFirst(ordered)
      ensures storage.View() == DeleteEach(old(storage.View()), Ids(Beyond(ordered, keepCount)))
    {
      r, ordered := storage.CleanupOldBackups(keepCount);
    }
  }
}
