/** Failure-carrying results and the error values the program reports. */
module Results {

  datatype Option<+T> = None | Some(value: T)

  datatype Unit = Unit

  /** Every error the core returns, by kind; wrappers mirror the `fmt.Errorf("...: %w", err)` chains. */
  datatype Error =
    | ProjectNotFound(key: string)
    | EnvironmentNotFound(key: string)
    | FileConfigNotFound(key: string)
    | BackupNotFound(key: string)
    | EmptyProjectName
    | EmptySourcePath
    | EmptyTargetPath
    | ProjectNameTaken(name: string)
    | EnvironmentNameTaken(name: string)
    | TargetPathTaken(path: string)
    | SourceMissing(path: string)
    | MkdirFailed(dir: string)
    | OpenFailed(path: string)
    | CreateFailed(path: string)
    | ReadFailed(name: string)
    | ParseFailed(name: string)
    | WriteFailed(name: string)
    | RemoveFailed(name: string)
    | ConfirmationNeeded(current: string, proposed: string)
    | BackupFailed(cause: Error)
    | BackupFileFailed(target: string, cause: Error)
    | SwitchFileFailed(target: string, cause: Error)
    | RestoreFailed(target: string, cause: Error)
    | LoadFailed(cause: Error)

  datatype Result<+T> = Ok(value: T) | Err(error: Error)
}
