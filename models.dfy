/** The persisted entities of the program (internal/models.go). */
module Models {
  import opened Results

  type Path = string

  /** A wall-clock reading; 0 stands for Go's zero `time.Time`. */
  type Time = int

  const ZeroTime: Time := 0

  datatype FileConfig = FileConfig(
    id: string,
    sourcePath: Path,
    targetPath: Path,
    backupPath: Path,
    description: string)

  datatype Environment = Environment(
    id: string,
    name: string,
    description: string,
    tags: seq<string>,
    createdAt: Time,
    updatedAt: Time,
    lastSwitchAt: Option<Time>,
    files: seq<FileConfig>)

  datatype Project = Project(
    id: string,
    name: string,
    description: string,
    createdAt: Time,
    updatedAt: Time,
    environments: seq<Environment>)

  /** What is currently active; the zero value means "nothing switched". */
  datatype AppState = AppState(
    currentProject: string,
    currentEnvironment: string,
    lastSwitchAt: Option<Time>,
    backupId: string)

  const EmptyAppState := AppState("", "", None, "")

  /** One snapshot: target path -> path of the copy taken before the switch. */
  datatype BackupInfo = BackupInfo(
    id: string,
    timestamp: Time,
    files: map<Path, Path>,
    projectId: string,
    envId: string)

  /** The dynamic values of a `map[string]interface{}` update request. */
  datatype Value = Str(s: string) | Int(i: int) | Bool(b: bool) | Strings(items: seq<string>) | Other
}
