/**
 * The settings logic of internal/config/config.go: the data-directory
 * history, the non-interactive outcomes of a data-directory change, the
 * check for existing project data, and the typed field updates. Reading and
 * writing the configuration file is not part of this model.
 */
module Config {
  import opened Results
  import opened Models
  import opened Disk

  /** The fields of the global configuration, as a value. */
  datatype ConfigValue = ConfigValue(
    dataDir: Path,
    backupDir: Path,
    webPort: int,
    defaultProject: string,
    originalDataDir: Path,
    dataDirHistory: seq<Path>,
    enableDataDirCheck: bool)

  /** One entry of `os.ReadDir`. */
  datatype DirEntry = DirEntry(name: string, isDir: bool)

  /** What the file system shows at a directory: nothing, an error, or its entries. */
  datatype DirState = Absent | Unreadable | Listing(entries: seq<DirEntry>)

  /** The directory oracle: the state of every directory path. */
  type Dirs = Path -> DirState

  function ProjectsDirOf(dataDir: Path): Path { dataDir + "/projects" }

  /** A project document: a plain file whose name ends in ".json". */
  predicate IsProjectFile(e: DirEntry) { !e.isDir && IsJsonName(e.name) }

  ghost predicate NoDuplicates(s: seq<Path>) {
    forall i, j :: 0 <= i < j < |s| ==> s[i] != s[j]
  }

  // ----- the data-directory history -----

  /** `updateDataDirHistory(oldDir)`: the first directory ever left becomes
      the original one; the history gains oldDir at its end unless it is
      already recorded. */
  function RecordHistory(c: ConfigValue, oldDir: Path): (r: ConfigValue)
    ensures r == c.(originalDataDir := r.originalDataDir, dataDirHistory := r.dataDirHistory)
    ensures c.originalDataDir == "" ==> r.originalDataDir == oldDir
    ensures c.originalDataDir != "" ==> r.originalDataDir == c.originalDataDir
    ensures oldDir in c.dataDirHistory ==> r.dataDirHistory == c.dataDirHistory
    ensures oldDir !in c.dataDirHistory ==> r.dataDirHistory == c.dataDirHistory + [oldDir]
  {
    var c1 := if c.originalDataDir == "" then c.(originalDataDir := oldDir) else c;
    if oldDir in c1.dataDirHistory then c1 else c1.(dataDirHistory := c1.dataDirHistory + [oldDir])
  }

  /** After recording, oldDir is in the history, the old entries are kept in
      place, and the history grew by at most one entry. */
  lemma RecordHistoryRemembers(c: ConfigValue, oldDir: Path)
    ensures var h := RecordHistory(c, oldDir).dataDirHistory;
            oldDir in h && |c.dataDirHistory| <= |h| <= |c.dataDirHistory| + 1
            && h[..|c.dataDirHistory|] == c.dataDirHistory
  {
    var h := RecordHistory(c, oldDir).dataDirHistory;
    if oldDir !in c.dataDirHistory {
      assert h[|c.dataDirHistory|] == oldDir;
    }
  }

  /** A history without duplicates stays without duplicates. */
  lemma RecordHistoryKeepsDistinct(c: ConfigValue, oldDir: Path)
    requires NoDuplicates(c.dataDirHistory)
    ensures NoDuplicates(RecordHistory(c, oldDir).dataDirHistory)
  {
    var h := RecordHistory(c, oldDir).dataDirHistory;
    if oldDir !in c.dataDirHistory {
      forall i, j | 0 <= i < j < |h|
        ensures h[i] != h[j]
      {
        if j == |h| - 1 {
          assert h[i] == c.dataDirHistory[i];
        } else {
          assert h[i] == c.dataDirHistory[i] && h[j] == c.dataDirHistory[j];
        }
      }
    }
  }

  /** Recording the same directory twice is the same as recording it once. */
  lemma RecordHistoryIdempotent(c: ConfigValue, oldDir: Path)
    ensures RecordHistory(RecordHistory(c, oldDir), oldDir) == RecordHistory(c, oldDir)
  {
    var r := RecordHistory(c, oldDir);
    assert oldDir in r.dataDirHistory by {
      RecordHistoryRemembers(c, oldDir);
    }
  }

  // ----- the data check -----

  /** `CheckDataDirHasData` on the state of `<dataDir>/projects`. */
  function HasData(projectsDir: Path, d: DirState): (r: Result<bool>)
    ensures r.Err? <==> d.Unreadable?
    ensures r == Ok(true) <==> d.Listing? && exists i :: 0 <= i < |d.entries| && IsProjectFile(d.entries[i])
  {
    match d
    case Absent => Ok(false)
    case Unreadable => Err(ReadFailed(projectsDir))
    case Listing(entries) => Ok(exists i :: 0 <= i < |entries| && IsProjectFile(entries[i]))
  }

  /** The scan loop of `CheckDataDirHasData`. */
  method CheckDataDirHasData(dirs: Dirs, dataDir: Path) returns (r: Result<bool>)
    ensures r == HasData(ProjectsDirOf(dataDir), dirs(ProjectsDirOf(dataDir)))
  {
    var d := dirs(ProjectsDirOf(dataDir));
    match d {
      case Absent =>
        return Ok(false);
      case Unreadable =>
        return Err(ReadFailed(ProjectsDirOf(dataDir)));
      case Listing(entries) =>
        var i := 0;
        while i < |entries|
          invariant 0 <= i <= |entries|
          invariant forall j :: 0 <= j < i ==> !IsProjectFile(entries[j])
        {
          if !entries[i].isDir && IsJsonName(entries[i].name) {
            return Ok(true);
          }
          i := i + 1;
        }
        return Ok(false);
    }
  }

  // ----- a change of data directory -----

  /** `handleDataDirChange(newDir)` without its interactive part:
      with the check disabled the directory is replaced and the history left
      alone; with no project data in the current directory the directory is
      replaced and the old one recorded; with data present the change waits
      for a confirmation that this model does not take. */
  function ChangeDataDir(c: ConfigValue, newDir: Path, projects: DirState): (e: (ConfigValue, Result<Unit>))
    ensures e.1.Err? ==> e.0 == c
    ensures !c.enableDataDirCheck ==> e == (c.(dataDir := newDir), Ok(Unit))
    ensures c.enableDataDirCheck && HasData(ProjectsDirOf(c.dataDir), projects) == Ok(false) ==>
              e == (RecordHistory(c, c.dataDir).(dataDir := newDir), Ok(Unit))
    ensures c.enableDataDirCheck && HasData(ProjectsDirOf(c.dataDir), projects) == Ok(true) ==>
              e.1 == Err(ConfirmationNeeded(c.dataDir, newDir))
    ensures c.enableDataDirCheck && HasData(ProjectsDirOf(c.dataDir), projects).Err? ==> e.1 == Err(LoadFailed(HasData(ProjectsDirOf(c.dataDir), projects).error))
  {
    if !c.enableDataDirCheck then (c.(dataDir := newDir), Ok(Unit))
    else
      match HasData(ProjectsDirOf(c.dataDir), projects)
      case Err(err) => (c, Err(LoadFailed(err)))
      case Ok(false) => (RecordHistory(c, c.dataDir).(dataDir := newDir), Ok(Unit))
      case Ok(true) => (c, Err(ConfirmationNeeded(c.dataDir, newDir)))
  }

  /** A successful change always lands on the new directory; the history
      changes only when the check is on, and then by recording the old
      directory. */
  lemma ChangeDataDirOutcome(c: ConfigValue, newDir: Path, projects: DirState)
    requires ChangeDataDir(c, newDir, projects).1.Ok?
    ensures var r := ChangeDataDir(c, newDir, projects).0;
            r.dataDir == newDir
            && r.backupDir == c.backupDir && r.webPort == c.webPort && r.defaultProject == c.defaultProject
            && r.enableDataDirCheck == c.enableDataDirCheck
            && (!c.enableDataDirCheck ==> r.dataDirHistory == c.dataDirHistory && r.originalDataDir == c.originalDataDir)
            && (c.enableDataDirCheck ==> c.dataDir in r.dataDirHistory
                                         && r.dataDirHistory[..|c.dataDirHistory|] == c.dataDirHistory
                                         && r.originalDataDir == (if c.originalDataDir == "" then c.dataDir else c.originalDataDir))
  {
    if c.enableDataDirCheck {
      RecordHistoryRemembers(c, c.dataDir);
    }
  }

  // ----- UpdateConfig -----

  /** The typed field updates of `UpdateConfig`, in source order; a value of
      another dynamic type is ignored. */
  function ApplyFields(c: ConfigValue, updates: map<string, Value>): (r: ConfigValue)
    ensures r.dataDir == c.dataDir && r.originalDataDir == c.originalDataDir && r.dataDirHistory == c.dataDirHistory
  {
    var c1 := if "backup_dir" in updates && updates["backup_dir"].Str? then c.(backupDir := updates["backup_dir"].s) else c;
    var c2 := if "web_port" in updates && updates["web_port"].Int? then c1.(webPort := updates["web_port"].i) else c1;
    var c3 := if "default_project" in updates && updates["default_project"].Str?
              then c2.(defaultProject := updates["default_project"].s) else c2;
    if "enable_data_dir_check" in updates && updates["enable_data_dir_check"].Bool?
    then c3.(enableDataDirCheck := updates["enable_data_dir_check"].b) else c3
  }

  /** `data_dir` is acted on only when it is a string different from the current directory. */
  predicate RequestsNewDataDir(c: ConfigValue, updates: map<string, Value>) {
    "data_dir" in updates && updates["data_dir"].Str? && updates["data_dir"].s != c.dataDir
  }

  /** `UpdateConfig(updates)` up to the final save; projects is the state of
      the current data directory's `projects`. A refused data-directory change
      stops the whole update. */
  function UpdateConfigEffect(c: ConfigValue, updates: map<string, Value>, projects: DirState): (e: (ConfigValue, Result<Unit>))
    ensures e.1.Err? ==> e.0 == c && RequestsNewDataDir(c, updates)
    ensures !RequestsNewDataDir(c, updates) ==> e == (ApplyFields(c, updates), Ok(Unit))
    ensures RequestsNewDataDir(c, updates) ==>
              var change := ChangeDataDir(c, updates["data_dir"].s, projects);
              (change.1.Err? ==> e == (c, change.1))
              && (change.1.Ok? ==> e == (ApplyFields(change.0, updates), Ok(Unit)))
  {
    if RequestsNewDataDir(c, updates) then
      var (c1, r) := ChangeDataDir(c, updates["data_dir"].s, projects);
      if r.Err? then (c, r) else (ApplyFields(c1, updates), Ok(Unit))
    else (ApplyFields(c, updates), Ok(Unit))
  }

  /** A field is set exactly when its update has the expected type; otherwise
      it keeps its value. */
  lemma UpdateFieldsTyped(c: ConfigValue, updates: map<string, Value>, projects: DirState)
    requires UpdateConfigEffect(c, updates, projects).1.Ok?
    ensures var r := UpdateConfigEffect(c, updates, projects).0;
            (r.backupDir == if "backup_dir" in updates && updates["backup_dir"].Str? then updates["backup_dir"].s else c.backupDir)
            && (r.webPort == if "web_port" in updates && updates["web_port"].Int? then updates["web_port"].i else c.webPort)
            && (r.defaultProject ==
                  if "default_project" in updates && updates["default_project"].Str? then updates["default_project"].s
                  else c.defaultProject)
            && (r.enableDataDirCheck ==
                  if "enable_data_dir_check" in updates && updates["enable_data_dir_check"].Bool?
                  then updates["enable_data_dir_check"].b else c.enableDataDirCheck)
  {
    if RequestsNewDataDir(c, updates) {
      ChangeDataDirOutcome(c, updates["data_dir"].s, projects);
    }
  }

  /** An accepted change of data directory leaves the configuration on the
      new directory; with the check on, the old directory is in the history. */
  lemma DataDirChangeApplied(c: ConfigValue, updates: map<string, Value>, projects: DirState)
    requires RequestsNewDataDir(c, updates) && UpdateConfigEffect(c, updates, projects).1.Ok?
    ensures var r := UpdateConfigEffect(c, updates, projects).0;
            r.dataDir == updates["data_dir"].s
            && (c.enableDataDirCheck ==> c.dataDir in r.dataDirHistory
                                         && r.dataDirHistory[..|c.dataDirHistory|] == c.dataDirHistory)
            && (!c.enableDataDirCheck ==> r.dataDirHistory == c.dataDirHistory)
  {
    ChangeDataDirOutcome(c, updates["data_dir"].s, projects);
  }

  /** A `data_dir` equal to the current directory, or of the wrong type,
      leaves the directory and its history alone. */
  lemma SameDataDirSkipped(c: ConfigValue, updates: map<string, Value>, projects: DirState)
    requires !RequestsNewDataDir(c, updates)
    ensures var (r, res) := UpdateConfigEffect(c, updates, projects);
            res.Ok? && r.dataDir == c.dataDir && r.dataDirHistory == c.dataDirHistory
            && r.originalDataDir == c.originalDataDir
  {
  }

  /** Applying the same updates again changes nothing more. */
  lemma ApplyFieldsIdempotent(c: ConfigValue, updates: map<string, Value>)
    ensures ApplyFields(ApplyFields(c, updates), updates) == ApplyFields(c, updates)
  {
  }

  /** The global configuration object. */
  class Config {
    var dataDir: Path
    var backupDir: Path
    var webPort: int
    var defaultProject: string
    var originalDataDir: Path
    var dataDirHistory: seq<Path>
    var enableDataDirCheck: bool

    constructor(c: ConfigValue)
      ensures View() == c
    {
      dataDir := c.dataDir;
      backupDir := c.backupDir;
      webPort := c.webPort;
      defaultProject := c.defaultProject;
      originalDataDir := c.originalDataDir;
      dataDirHistory := c.dataDirHistory;
      enableDataDirCheck := c.enableDataDirCheck;
    }

    function View(): ConfigValue
      reads this
    {
      ConfigValue(dataDir, backupDir, webPort, defaultProject, originalDataDir, dataDirHistory, enableDataDirCheck)
    }

    /** `updateDataDirHistory(config, oldDir)`, with its duplicate scan. */
    method UpdateDataDirHistory(oldDir: Path)
      modifies this
      ensures View() == RecordHistory(old(View()), oldDir)
    {
      if originalDataDir == "" {
        originalDataDir := oldDir;
      }
      var i := 0;
      while i < |dataDirHistory|
        invariant 0 <= i <= |dataDirHistory|
        invariant forall j :: 0 <= j < i ==> dataDirHistory[j] != oldDir
        invariant View() == old(View()).(originalDataDir := originalDataDir)
        invariant originalDataDir == RecordHistory(old(View()), oldDir).originalDataDir
      {
        if dataDirHistory[i] == oldDir {
          return;
        }
        i := i + 1;
      }
      dataDirHistory := dataDirHistory + [oldDir];
    }

    /** `handleDataDirChange(config, newDir)`; `dirs` answers the directory queries. */
    method HandleDataDirChange(newDir: Path, dirs: Dirs) returns (r: Result<Unit>)
      modifies this
      ensures (View(), r) == ChangeDataDir(old(View()), newDir, dirs(ProjectsDirOf(old(dataDir))))
    {
      if !enableDataDirCheck {
        dataDir := newDir;
        return Ok(Unit);
      }
      var current := dataDir;
      var hasData := CheckDataDirHasData(dirs, current);
      if hasData.Err? {
        return Err(LoadFailed(hasData.error));
      }
      if !hasData.value {
        dataDir := newDir;
        UpdateDataDirHistory(current);
        return Ok(Unit);
      }
      r := Err(ConfirmationNeeded(current, newDir));
    }

    /** `UpdateConfig(updates)` up to `SaveConfig`. */
    method UpdateConfig(updates: map<string, Value>, dirs: Dirs) returns (r: Result<Unit>)
      modifies this
      ensures (View(), r) == UpdateConfigEffect(old(View()), updates, dirs(ProjectsDirOf(old(dataDir))))
    {
      if "data_dir" in updates {
        var v := updates["data_dir"];
        if v.Str? && v.s != dataDir {
          r := HandleDataDirChange(v.s, dirs);
          if r.Err? {
            return;
          }
        }
      }
      SetTypedFields(updates);
      r := Ok(Unit);
    }

    /** The remaining field updates of `UpdateConfig`, each applied only to a value of its type. */
    method SetTypedFields(updates: map<string, Value>)
      modifies this
      ensures View() == ApplyFields(old(View()), updates)
    {
      if "backup_dir" in updates && updates["backup_dir"].Str? {
        backupDir := updates["backup_dir"].s;
      }
      if "web_port" in updates && updates["web_port"].Int? {
        webPort := updates["web_port"].i;
      }
      if "default_project" in updates && updates["default_project"].Str? {
        defaultProject := updates["default_project"].s;
      }
      if "enable_data_dir_check" in updates && updates["enable_data_dir_check"].Bool? {
        enableDataDirCheck := updates["enable_data_dir_check"].b;
      }
    }
  }
}
