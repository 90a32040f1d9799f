/**
 * The entity store (internal/storage/storage.go): one JSON document per
 * project under `<data>/projects`, the singleton `<data>/state.json`, and one
 * document per backup under the backup root. Documents are kept as values, so
 * marshalling is the identity.
 */
module Storage {
  import opened Results
  import opened Models
  import opened Disk

  /** Everything on disk that the core reads or writes, plus the fixed
      directories and failure points. */
  datatype Store = Store(
    dataDir: Path,
    backupRoot: Path,
    faults: Faults,
    writable: bool,
    files: Files,
    projects: seq<Entry<Project>>,
    state: Option<Body<AppState>>,
    backups: seq<Entry<BackupInfo>>)

  /** The store after an operation, and what the operation returned. */
  datatype Effect<T> = Effect(after: Store, result: Result<T>)

  ghost predicate WellFormed(st: Store) {
    DistinctNames(st.projects) && DistinctNames(st.backups)
  }

  function ProjectsDir(st: Store): Path { st.dataDir + "/projects" }

  function DocName(id: string): string { id + JsonExt }

  const StateFile := "state.json"

  lemma DocNameIsJson(id: string)
    ensures IsJsonName(DocName(id))
  {
    assert DocName(id)[|DocName(id)| - 5..] == JsonExt;
  }

  lemma DocNameInjective(a: string, b: string)
    requires a != b
    ensures DocName(a) != DocName(b)
  {
    assert DocName(a)[..|a|] == a;
    assert DocName(b)[..|b|] == b;
    if |a| == |b| {
      assert DocName(a) == DocName(b) ==> a == b;
    }
  }

  // ----- projects -----

  /** `SaveProject`: create the projects directory, then write `<id>.json`. */
  function SaveProjectEffect(st: Store, p: Project): (e: Effect<Unit>)
    ensures e.after.files == st.files && e.after.state == st.state && e.after.backups == st.backups
    ensures e.result.Ok? <==> ProjectsDir(st) !in st.faults.badDirs && st.writable
                              && Find(st.projects, DocName(p.id)) != Some(Directory)
    ensures e.result.Ok? ==> e.after.projects == Put(st.projects, DocName(p.id), Parsed(p))
    ensures e.result.Err? ==> e.after == st
  {
    if ProjectsDir(st) in st.faults.badDirs then Effect(st, Err(MkdirFailed(ProjectsDir(st))))
    else
      var (es, w) := Write(st.projects, DocName(p.id), p, st.writable);
      Effect(st.(projects := es), w)
  }

  /** `LoadProject`: read `<id>.json`; "project not found" when it is absent. */
  function LoadProject(st: Store, id: string): (r: Result<Project>)
    ensures r.Ok? <==> Read(st.projects, DocName(id)).Loaded?
    ensures r.Ok? ==> Find(st.projects, DocName(id)) == Some(Parsed(r.value))
    ensures r == Err(ProjectNotFound(id)) <==> DocName(id) !in Names(st.projects)
  {
    match Read(st.projects, DocName(id))
    case Loaded(p) => Ok(p)
    case Missing => Err(ProjectNotFound(id))
    case NotAFile => Err(ReadFailed(DocName(id)))
    case Corrupt => Err(ParseFailed(DocName(id)))
  }

  lemma SaveThenLoadProject(st: Store, p: Project)
    requires SaveProjectEffect(st, p).result.Ok?
    ensures LoadProject(SaveProjectEffect(st, p).after, p.id) == Ok(p)
  {
  }

  lemma SaveProjectKeepsOthers(st: Store, p: Project, id: string)
    requires id != p.id
    ensures LoadProject(SaveProjectEffect(st, p).after, id) == LoadProject(st, id)
  {
    DocNameInjective(id, p.id);
  }

  /** `DeleteProject`: remove `<id>.json`; "project not found" when it is absent. */
  function DeleteProjectEffect(st: Store, id: string): (e: Effect<Unit>)
    ensures e.result.Ok? <==> DocName(id) in Names(st.projects) && st.writable
    ensures DocName(id) !in Names(st.projects) ==> e.result == Err(ProjectNotFound(id))
    ensures e.result.Ok? ==> e.after == st.(projects := Drop(st.projects, DocName(id)))
    ensures e.result.Err? ==> e.after == st
  {
    if Find(st.projects, DocName(id)).None? then Effect(st, Err(ProjectNotFound(id)))
    else if !st.writable then Effect(st, Err(RemoveFailed(DocName(id))))
    else Effect(st.(projects := Drop(st.projects, DocName(id))), Ok(Unit))
  }

  lemma DeleteThenLoadProject(st: Store, id: string)
    requires WellFormed(st) && DeleteProjectEffect(st, id).result.Ok?
    ensures LoadProject(DeleteProjectEffect(st, id).after, id) == Err(ProjectNotFound(id))
    ensures DeleteProjectEffect(DeleteProjectEffect(st, id).after, id).result == Err(ProjectNotFound(id))
  {
    DropKeepsDistinct(st.projects, DocName(id));
  }

  // ----- listings -----

  /** What the listing loop gathers from `es`: each ".json" entry is loaded
      again by the identifier its name gives, and entries that fail to load
      are skipped. */
  function Collect<T>(all: seq<Entry<T>>, es: seq<Entry<T>>): seq<T>
  {
    if es == [] then []
    else
      var last := es[|es| - 1];
      Collect(all, es[..|es| - 1])
        + (if IsJsonName(last.name) && Read(all, IdOf(last.name) + JsonExt).Loaded?
           then [Read(all, IdOf(last.name) + JsonExt).value] else [])
  }

  /** The documents of the ".json" entries that parse, in listing order. */
  function ParsedDocs<T>(es: seq<Entry<T>>): seq<T>
  {
    if es == [] then []
    else
      var last := es[|es| - 1];
      ParsedDocs(es[..|es| - 1]) + (if IsJsonName(last.name) && last.body.Parsed? then [last.body.value] else [])
  }

  lemma {:induction false} CollectPrefix<T>(all: seq<Entry<T>>, k: nat)
    requires DistinctNames(all) && k <= |all|
    ensures Collect(all, all[..k]) == ParsedDocs(all[..k])
  {
    if k > 0 {
      assert all[..k][..k - 1] == all[..k - 1];
      CollectPrefix(all, k - 1);
      var last := all[k - 1];
      if IsJsonName(last.name) {
        FindAt(all, k - 1);
        assert IdOf(last.name) + JsonExt == last.name;
      }
    }
  }

  /** The listing of a well-formed directory is exactly its parseable ".json" documents, in order. */
  lemma CollectIsParsedDocs<T>(all: seq<Entry<T>>)
    requires DistinctNames(all)
    ensures Collect(all, all) == ParsedDocs(all)
  {
    CollectPrefix(all, |all|);
    assert all[..|all|] == all;
  }

  /** An entry the listing reports: a ".json" name holding a parsed document. */
  predicate Listed<T>(e: Entry<T>) {
    IsJsonName(e.name) && e.body.Parsed?
  }

  lemma {:induction false} ParsedDocsMembers<T>(es: seq<Entry<T>>, v: T)
    ensures v in ParsedDocs(es) <==> exists e :: e in es && Listed(e) && e.body.value == v
  {
    if es != [] {
      ParsedDocsMembers(es[..|es| - 1], v);
      assert es == es[..|es| - 1] + [es[|es| - 1]];
      assert forall e :: e in es <==> e in es[..|es| - 1] || e == es[|es| - 1];
    }
  }

  /** On a well-formed store, a project is listed exactly when some ".json" entry holds it. */
  lemma ListedProjectsMembers(st: Store, v: Project)
    requires WellFormed(st)
    ensures v in ListedProjects(st) <==> exists e :: e in st.projects && Listed(e) && e.body.value == v
  {
    CollectIsParsedDocs(st.projects);
    ParsedDocsMembers(st.projects, v);
  }

  /** The loop of `ListProjects` and `ListBackups`. A missing directory lists as empty. */
  method ListDocuments<T>(es: seq<Entry<T>>) returns (vs: seq<T>)
    ensures vs == Collect(es, es)
  {
    vs := [];
    var i := 0;
    while i < |es|
      invariant 0 <= i <= |es|
      invariant vs == Collect(es, es[..i])
    {
      var e := es[i];
      if IsJsonName(e.name) {
        var id := IdOf(e.name);
        var loaded := Read(es, id + JsonExt);
        if loaded.Loaded? {
          vs := vs + [loaded.value];
        }
      }
      assert es[..i + 1][..i] == es[..i];
      i := i + 1;
    }
    assert es[..i] == es;
  }

  function ListedProjects(st: Store): seq<Project> { Collect(st.projects, st.projects) }

  /** The index of the first project called name. */
  function FirstNamed(ps: seq<Project>, name: string): (r: Option<nat>)
    ensures r.Some? ==> r.value < |ps| && ps[r.value].name == name
    ensures r.Some? ==> forall k :: 0 <= k < r.value ==> ps[k].name != name
    ensures r.None? <==> forall k :: 0 <= k < |ps| ==> ps[k].name != name
  {
    if ps == [] then None
    else if ps[0].name == name then Some(0)
    else match FirstNamed(ps[1..], name)
      case None => None
      case Some(k) => Some(k + 1)
  }

  /** `LoadProjectByName`: the first listed project with exactly this name. */
  function ProjectByName(st: Store, name: string): (r: Result<Project>)
    ensures r.Ok? <==> exists k :: 0 <= k < |ListedProjects(st)| && ListedProjects(st)[k].name == name
    ensures r.Ok? ==> r.value.name == name && r.value in ListedProjects(st)
    ensures r.Err? ==> r.error == ProjectNotFound(name)
    ensures r.Ok? ==> FirstNamed(ListedProjects(st), name).Some?
                      && r.value == ListedProjects(st)[FirstNamed(ListedProjects(st), name).value]
  {
    var ps := ListedProjects(st);
    match FirstNamed(ps, name)
    case Some(k) => Ok(ps[k])
    case None => Err(ProjectNotFound(name))
  }

  // ----- application state -----

  /** `SaveAppState`: overwrite `state.json`. */
  function SaveAppStateEffect(st: Store, s: AppState): (e: Effect<Unit>)
    ensures e.result.Ok? <==> st.writable && st.state != Some(Directory)
    ensures e.result.Ok? ==> e.after == st.(state := Some(Parsed(s)))
    ensures e.result.Err? ==> e.after == st
  {
    if !st.writable || st.state == Some(Directory) then Effect(st, Err(WriteFailed(StateFile)))
    else Effect(st.(state := Some(Parsed(s))), Ok(Unit))
  }

  /** `LoadAppState`: the empty state when `state.json` does not exist. */
  function LoadAppState(st: Store): (r: Result<AppState>)
    ensures st.state.None? ==> r == Ok(EmptyAppState)
    ensures st.state.Some? && st.state.value.Parsed? ==> r == Ok(st.state.value.value)
    ensures r.Err? <==> st.state.Some? && !st.state.value.Parsed?
  {
    match st.state
    case None => Ok(EmptyAppState)
    case Some(Parsed(s)) => Ok(s)
    case Some(Unparsable) => Err(ParseFailed(StateFile))
    case Some(Directory) => Err(ReadFailed(StateFile))
  }

  lemma SaveThenLoadAppState(st: Store, s: AppState)
    requires SaveAppStateEffect(st, s).result.Ok?
    ensures LoadAppState(SaveAppStateEffect(st, s).after) == Ok(s)
  {
  }

  // ----- backups -----

  /** `SaveBackupInfo`: create the backup root, then write `<id>.json` there. */
  function SaveBackupInfoEffect(st: Store, b: BackupInfo): (e: Effect<Unit>)
    ensures e.after.files == st.files && e.after.projects == st.projects && e.after.state == st.state
    ensures e.result.Ok? <==> st.backupRoot !in st.faults.badDirs && st.writable
                              && Find(st.backups, DocName(b.id)) != Some(Directory)
    ensures e.result.Ok? ==> e.after.backups == Put(st.backups, DocName(b.id), Parsed(b))
    ensures e.result.Err? ==> e.after == st
  {
    if st.backupRoot in st.faults.badDirs then Effect(st, Err(MkdirFailed(st.backupRoot)))
    else
      var (es, w) := Write(st.backups, DocName(b.id), b, st.writable);
      Effect(st.(backups := es), w)
  }

  /** `LoadBackupInfo`: read `<id>.json` under the backup root. */
  function LoadBackupInfo(st: Store, id: string): (r: Result<BackupInfo>)
    ensures r.Ok? <==> Read(st.backups, DocName(id)).Loaded?
    ensures r.Ok? ==> Find(st.backups, DocName(id)) == Some(Parsed(r.value))
    ensures r == Err(BackupNotFound(id)) <==> DocName(id) !in Names(st.backups)
  {
    match Read(st.backups, DocName(id))
    case Loaded(b) => Ok(b)
    case Missing => Err(BackupNotFound(id))
    case NotAFile => Err(ReadFailed(DocName(id)))
    case Corrupt => Err(ParseFailed(DocName(id)))
  }

  lemma SaveThenLoadBackupInfo(st: Store, b: BackupInfo)
    requires SaveBackupInfoEffect(st, b).result.Ok?
    ensures LoadBackupInfo(SaveBackupInfoEffect(st, b).after, b.id) == Ok(b)
  {
  }

  function ListedBackups(st: Store): seq<BackupInfo> { Collect(st.backups, st.backups) }

  /** `DeleteBackup`: load the record, remove every copy it names (a copy that
      is already gone is ignored), then remove the record itself. */
  function DeleteBackupEffect(st: Store, id: string): (e: Effect<Unit>)
    ensures LoadBackupInfo(st, id).Err? ==> e == Effect(st, Err(LoadBackupInfo(st, id).error))
    ensures LoadBackupInfo(st, id).Ok? ==>
              e.after.files == st.files - LoadBackupInfo(st, id).value.files.Values
    ensures e.after.projects == st.projects && e.after.state == st.state
    ensures e.result.Ok? <==> LoadBackupInfo(st, id).Ok? && st.writable
    ensures e.result.Ok? ==> e.after.backups == Drop(st.backups, DocName(id))
    ensures e.result.Err? ==> e.after.backups == st.backups
  {
    match LoadBackupInfo(st, id)
    case Err(err) => Effect(st, Err(err))
    case Ok(info) =>
      var st1 := st.(files := st.files - info.files.Values);
      if !st.writable then Effect(st1, Err(RemoveFailed(DocName(id))))
      else Effect(st1.(backups := Drop(st.backups, DocName(id))), Ok(Unit))
  }

  /** `DeleteBackup` on each id in turn; a failure does not stop the rest. */
  function DeleteEach(st: Store, ids: seq<string>): Store
    decreases |ids|
  {
    if ids == [] then st else DeleteEach(DeleteBackupEffect(st, ids[0]).after, ids[1..])
  }

  lemma {:induction false} DeleteEachKeepsProjects(st: Store, ids: seq<string>)
    ensures DeleteEach(st, ids).projects == st.projects && DeleteEach(st, ids).state == st.state
    ensures WellFormed(st) ==> WellFormed(DeleteEach(st, ids))
    decreases |ids|
  {
    if ids != [] {
      if WellFormed(st) {
        DropKeepsDistinct(st.backups, DocName(ids[0]));
      }
      DeleteEachKeepsProjects(DeleteBackupEffect(st, ids[0]).after, ids[1..]);
    }
  }

  lemma {:induction false} DeleteEachOnlyRemoves(st: Store, ids: seq<string>)
    ensures Names(DeleteEach(st, ids).backups) <= Names(st.backups)
    decreases |ids|
  {
    if ids != [] {
      DeleteEachOnlyRemoves(DeleteBackupEffect(st, ids[0]).after, ids[1..]);
    }
  }

  /** Names that none of the ids give are left alone. */
  lemma {:induction false} DeleteEachKeepsOthers(st: Store, ids: seq<string>, n: string)
    requires forall k :: 0 <= k < |ids| ==> n != DocName(ids[k])
    ensures Find(DeleteEach(st, ids).backups, n) == Find(st.backups, n)
    decreases |ids|
  {
    if ids != [] {
      assert forall k :: 0 <= k < |ids| - 1 ==> ids[1..][k] == ids[k + 1];
      DeleteEachKeepsOthers(DeleteBackupEffect(st, ids[0]).after, ids[1..], n);
    }
  }

  /** Keep-N-newest: on a writable, well-formed store, every id whose record
      loads is left with no record; every other name is untouched. */
  lemma {:induction false} DeleteEachRemovesRecords(st: Store, ids: seq<string>, id: string)
    requires WellFormed(st) && st.writable
    requires id in ids && LoadBackupInfo(st, id).Ok?
    ensures DocName(id) !in Names(DeleteEach(st, ids).backups)
    decreases |ids|
  {
    var st1 := DeleteBackupEffect(st, ids[0]).after;
    if ids[0] == id {
      DropKeepsDistinct(st.backups, DocName(id));
      DeleteEachOnlyRemoves(st1, ids[1..]);
    } else {
      assert id in ids[1..];
      DocNameInjective(ids[0], id);
      DeleteEachKeepsProjects(st, [ids[0]]);
      assert DeleteEach(st, [ids[0]]) == st1;
      DeleteEachRemovesRecords(st1, ids[1..], id);
    }
  }

  predicate NewestFirst(bs: seq<BackupInfo>) {
    forall i, j :: 0 <= i < j < |bs| ==> bs[i].timestamp >= bs[j].timestamp
  }

  function Ids(bs: seq<BackupInfo>): (r: seq<string>)
    ensures |r| == |bs| && forall k :: 0 <= k < |bs| ==> r[k] == bs[k].id
  {
    if bs == [] then [] else [bs[0].id] + Ids(bs[1..])
  }

  /** The backups past the first keepCount of a listing. */
  function Beyond(bs: seq<BackupInfo>, keepCount: nat): seq<BackupInfo>
  {
    if |bs| <= keepCount then [] else bs[keepCount..]
  }

  /** The exchange sort of `CleanupOldBackups`: afterwards the newest backup comes first. */
  method SortNewestFirst(a: array<BackupInfo>)
    modifies a
    ensures NewestFirst(a[..])
    ensures multiset(a[..]) == multiset(old(a[..]))
  {
    var n := a.Length;
    var i := 0;
    while i < n - 1
      invariant 0 <= i <= n
      invariant forall x, y :: 0 <= x < i && x < y < n ==> a[x].timestamp >= a[y].timestamp
      invariant multiset(a[..]) == multiset(old(a[..]))
    {
      var j := i + 1;
      while j < n
        invariant i + 1 <= j <= n
        invariant forall x, y :: 0 <= x < i && x < y < n ==> a[x].timestamp >= a[y].timestamp
        invariant forall y :: i < y < j ==> a[i].timestamp >= a[y].timestamp
        invariant multiset(a[..]) == multiset(old(a[..]))
      {
        if a[i].timestamp < a[j].timestamp {
          a[i], a[j] := a[j], a[i];
        }
        j := j + 1;
      }
      i := i + 1;
    }
  }

  /** The data directory and the backup root, with everything in them. */
  class Storage {
    const dataDir: Path
    const backupRoot: Path
    const faults: Faults
    const writable: bool
    var files: Files
    var projects: seq<Entry<Project>>
    var state: Option<Body<AppState>>
    var backups: seq<Entry<BackupInfo>>

    function View(): Store
      reads this
    {
      Store(dataDir, backupRoot, faults, writable, files, projects, state, backups)
    }

    ghost predicate Valid()
      reads this
    {
      WellFormed(View())
    }

    /** `NewStorage`: a store over the data directory and the backup root as
        they are on disk. */
    constructor (st: Store)
      requires WellFormed(st)
      ensures Valid()
      ensures View() == st
    {
      dataDir, backupRoot, faults, writable := st.dataDir, st.backupRoot, st.faults, st.writable;
      files, projects, state, backups := st.files, st.projects, st.state, st.backups;
    }

    method SaveProject(p: Project) returns (r: Result<Unit>)
      requires Valid()
      modifies this
      ensures Valid()
      ensures View() == SaveProjectEffect(old(View()), p).after
      ensures r == SaveProjectEffect(old(View()), p).result
    {
      var dir := dataDir + "/projects";
      if dir in faults.badDirs {
        return Err(MkdirFailed(dir));
      }
      var name := DocName(p.id);
      PutKeepsDistinct(projects, name, Parsed(p));
      var (es, written) := Write(projects, name, p, writable);
      projects, r := es, written;
    }

    method ListProjects() returns (ps: seq<Project>)
      ensures ps == ListedProjects(View())
    {
      ps := ListDocuments(projects);
    }

    method LoadProjectByName(name: string) returns (r: Result<Project>)
      ensures r == ProjectByName(View(), name)
    {
      var ps := ListProjects();
      var i := 0;
      while i < |ps|
        invariant 0 <= i <= |ps|
        invariant forall k :: 0 <= k < i ==> ps[k].name != name
      {
        if ps[i].name == name {
          return Ok(ps[i]);
        }
        i := i + 1;
      }
      r := Err(ProjectNotFound(name));
    }

    method DeleteProject(id: string) returns (r: Result<Unit>)
      requires Valid()
      modifies this
      ensures Valid()
      ensures View() == DeleteProjectEffect(old(View()), id).after
      ensures r == DeleteProjectEffect(old(View()), id).result
    {
      var name := DocName(id);
      if Find(projects, name).None? {
        return Err(ProjectNotFound(id));
      }
      if !writable {
        return Err(RemoveFailed(name));
      }
      DropKeepsDistinct(projects, name);
      projects := Drop(projects, name);
      r := Ok(Unit);
    }

    method SaveAppState(s: AppState) returns (r: Result<Unit>)
      requires Valid()
      modifies this
      ensures Valid()
      ensures View() == SaveAppStateEffect(old(View()), s).after
      ensures r == SaveAppStateEffect(old(View()), s).result
    {
      if !writable || state == Some(Directory) {
        return Err(WriteFailed(StateFile));
      }
      state := Some(Parsed(s));
      r := Ok(Unit);
    }

    method SaveBackupInfo(b: BackupInfo) returns (r: Result<Unit>)
      requires Valid()
      modifies this
      ensures Valid()
      ensures View() == SaveBackupInfoEffect(old(View()), b).after
      ensures r == SaveBackupInfoEffect(old(View()), b).result
    {
      if backupRoot in faults.badDirs {
        return Err(MkdirFailed(backupRoot));
      }
      PutKeepsDistinct(backups, DocName(b.id), Parsed(b));
      var (es, written) := Write(backups, DocName(b.id), b, writable);
      backups, r := es, written;
    }

    method ListBackups() returns (bs: seq<BackupInfo>)
      ensures bs == ListedBackups(View())
    {
      bs := ListDocuments(backups);
    }

    method DeleteBackup(id: string) returns (r: Result<Unit>)
      requires Valid()
      modifies this
      ensures Valid()
      ensures View() == DeleteBackupEffect(old(View()), id).after
      ensures r == DeleteBackupEffect(old(View()), id).result
    {
      var loaded := LoadBackupInfo(View(), id);
      if loaded.Err? {
        return Err(loaded.error);
      }
      var copies := loaded.value.files.Values;
      var todo := copies;
      while todo != {}
        invariant todo <= copies
        invariant files == old(files) - (copies - todo)
        invariant projects == old(projects) && backups == old(backups) && state == old(state)
        decreases |todo|
      {
        var p :| p in todo;
        files := files - {p};
        todo := todo - {p};
      }
      assert copies - todo == copies;
      if !writable {
        return Err(RemoveFailed(DocName(id)));
      }
      DropKeepsDistinct(backups, DocName(id));
      backups := Drop(backups, DocName(id));
      r := Ok(Unit);
    }

    /** `CleanupOldBackups(keepCount)`: sort newest first and delete every
        backup past the first keepCount, ignoring individual failures.
        `ordered` is the sorted listing; Go would index out of range for a
        negative keepCount. */
    method CleanupOldBackups(keepCount: int) returns (r: Result<Unit>, ghost ordered: seq<BackupInfo>)
      requires keepCount >= 0
      requires Valid()
      modifies this
      ensures Valid()
      ensures r == Ok(Unit)
      ensures multiset(ordered) == multiset(ListedBackups(old(View())))
      ensures |ordered| > keepCount ==> NewestFirst(ordered)
      ensures View() == DeleteEach(old(View()), Ids(Beyond(ordered, keepCount)))
    {
      var listed := ListBackups();
      ordered := listed;
      r := Ok(Unit);
      if |listed| <= keepCount {
        return;
      }
      var a := new BackupInfo[|listed|](k requires 0 <= k < |listed| => listed[k]);
      assert a[..] == listed;
      SortNewestFirst(a);
      ordered := a[..];
      DeleteAll(Ids(a[keepCount..]));
    }

    /** The deletion loop of `CleanupOldBackups`. */
    method DeleteAll(ids: seq<string>)
      requires Valid()
      modifies this
      ensures Valid()
      ensures View() == DeleteEach(old(View()), ids)
    {
      var i := 0;
      while i < |ids|
        invariant 0 <= i <= |ids|
        invariant Valid()
        invariant DeleteEach(old(View()), ids) == DeleteEach(View(), ids[i..])
      {
        assert ids[i..][1..] == ids[i + 1..];
        var _ := DeleteBackup(ids[i]);
        i := i + 1;
      }
    }
  }
}
