# envswitch: the environment-switch engine and its registry, in Dafny

envswitch keeps named *projects*. Each project holds *environments*, and each environment is an ordered list of
file mappings from a source path to a target path. Switching to an environment does three things:

1. It backs up every target that exists into a fresh backup directory and records a `target -> copy` map.
2. It copies each source onto its target, in list order.
3. On the first failure it rolls back from that backup and reports the failing target. On success it records the
   new active project and environment in the application state.

Projects, the application state and the backup records are JSON documents on disk.

This project models that core as Go has it:

- `internal/file/file.go`: the switch, the backup, the rollback and the file-mapping registry.
- `internal/storage/storage.go`: the document store.
- `internal/project/project.go`: the project and environment registry.
- `internal/config/config.go`: the data-directory bookkeeping.
- `cmd/project.go`: the `truncateString` helper.

Each stateful Go type is a class whose fields hold its state:

- `Storage.Storage` is the data directory and the backup root: plain files, the project listing, `state.json`
  and the backup listing.
- `ProjectManager.Manager` and `FileManager.Manager` work through one `Storage`.
- `Config.Config` is the configuration object.

Every state-changing method is proved to leave the store equal to the `after` part of a pure effect function of
the old state (`SaveProjectEffect`, `CreateBackupEffect`, `SwitchEffect`, ...), and to return its `result` part.
The properties of the system are proved as lemmas about those effect functions.

Modelling decisions:

- **The file system.** A file system is a map from path to (bytes, mode). A copy is one step that either fails
  or gives the destination the source's bytes and mode. Failure points are fixed per store: paths that cannot be
  created, and directories that `os.MkdirAll` cannot make. Copying a file onto itself truncates it first, as
  `os.Create` does, so the result is empty.
- **Directories of documents.** A directory of documents is an ordered listing of named entries. An entry holds
  a parsed document, an unparsable file or a sub-directory. Writing replaces an entry in place or appends a new
  one.
- **Identifiers.** uuid generation is an oracle `ids: nat -> string`. `ids(0)` names the backup and `ids(1)`,
  `ids(2)`, ... name the copies. The lemmas that need fresh names assume distinct ids of uuid length.
- **Times.** Times are parameters.
- **Map order.** Go visits a map in no fixed order. The rollback therefore picks keys itself and returns, as a
  ghost value, the order it visited them in. `RestoreOrderIrrelevant` shows that, as long as no copy is itself a
  target, the order does not change whether the restore succeeds, nor the files it leaves when it does.

Two behaviours of the code are modelled as they are written:

- A successful switch does not store a switch time on the environment. `LastSwitchAt` is set on the loop's copy
  (internal/file/file.go:43-47, 65), so the project saved at internal/file/file.go:68 is the one that was loaded.
  `SwitchSuccess` proves the stored project unchanged.
- A backup whose copy of some target fails saves no backup record. The loop returns at
  internal/file/file.go:177-179, before the record is built and saved (internal/file/file.go:185-195). The copies
  already made stay in the backup directory, as `BackupFailureKeepsCopies` proves.

## Model

| member | source | states |
|---|---|---|
| Disk.Copy | internal/file/file.go:109-134 | a copy succeeds iff the source exists and the destination can be created; then the destination has the source's mode and bytes (none when source and destination are one file); every other path is unchanged, and a failure changes nothing |
| Disk.MkdirAll | internal/file/file.go:96 | creating a directory fails exactly for the directories that cannot be made |
| Disk.ParentDir | internal/file/file.go:95 | `filepath.Dir` of a clean path: everything before the last '/', "/" or "." |
| Disk.Base | internal/file/file.go:173 | `filepath.Base` of a clean path: everything after the last '/', the whole path when it has none, "." for the empty path; the result contains no '/' |
| Disk.Put | internal/storage/storage.go:39-41 | after a write the name holds the new body, every other name keeps its body, and the names grow by this one |
| Disk.PutKeepsDistinct | internal/storage/storage.go:31-41 | a write keeps the names of a listing distinct |
| Disk.PutMembers | internal/storage/storage.go:39-41 | the entries after a write are the new entry plus the old entries with other names |
| Disk.Drop | internal/storage/storage.go:120 | removing a name keeps every other name's body and adds no name |
| Disk.DropKeepsDistinct | internal/storage/storage.go:116-128 | removal keeps names distinct and the removed name is gone |
| Disk.DropMembers | internal/storage/storage.go:120 | the entries after a removal are exactly the old entries with other names |
| Disk.Read | internal/storage/storage.go:51-62 | reading gives the parsed document, "missing" exactly when no entry has the name, and otherwise an error |
| Disk.Write | internal/storage/storage.go:39-41 | `os.WriteFile` succeeds iff the store is writable and the name is not a directory, and then replaces or appends the entry; a failure changes nothing |
| Disk.IdOf | internal/storage/storage.go:101 | the id drawn from a ".json" name plus ".json" gives the name back |
| Disk.FindAt | internal/storage/storage.go:47-65 | in a listing with distinct names, looking up an entry's name finds that entry |
| Storage.SaveProjectEffect | internal/storage/storage.go:25-44 | saving a project succeeds iff the projects directory can be made, the store is writable and `<id>.json` is not a directory; it writes only that document |
| Storage.LoadProject | internal/storage/storage.go:47-65 | loading succeeds exactly when `<id>.json` holds a parsed project, and reports "project not found" exactly when there is no such file |
| Storage.SaveThenLoadProject | internal/storage/storage.go:25-65 | a saved project loads back equal, environments and files included |
| Storage.SaveProjectKeepsOthers | internal/storage/storage.go:31-41 | saving one project does not change what another id loads |
| Storage.DeleteProjectEffect | internal/storage/storage.go:116-128 | deleting succeeds iff the document exists and the store is writable; an absent id gives "project not found" |
| Storage.DeleteThenLoadProject | internal/storage/storage.go:116-128 | after a delete the project no longer loads, and a second delete reports "project not found" |
| Storage.CollectIsParsedDocs | internal/storage/storage.go:95-110 | the listing loop that reloads each ".json" entry by its derived id yields exactly the parseable ".json" documents, in listing order |
| Storage.ParsedDocsMembers | internal/storage/storage.go:96-110 | a document is listed iff some ".json" entry holds it parsed |
| Storage.ListedProjectsMembers | internal/storage/storage.go:84-113 | on a well-formed store a project is listed iff a ".json" entry holds it, so unparsable files and other names are skipped |
| Storage.ListDocuments | internal/storage/storage.go:95-112 | the loop of `ListProjects`/`ListBackups` computes the listing function |
| Storage.FirstNamed | internal/storage/storage.go:74-78 | the first index whose project has the name, with no earlier match |
| Storage.ProjectByName | internal/storage/storage.go:68-81 | found iff some listed project has exactly this name, and then it is the first listed project with that name; otherwise "project not found" |
| Storage.SaveAppStateEffect | internal/storage/storage.go:131-144 | saving the state succeeds iff the store is writable and `state.json` is not a directory, and then replaces it |
| Storage.LoadAppState | internal/storage/storage.go:147-165 | a missing state file loads as the empty state; a parsed one loads as stored; otherwise an error |
| Storage.SaveThenLoadAppState | internal/storage/storage.go:131-165 | a saved state loads back equal |
| Storage.SaveBackupInfoEffect | internal/storage/storage.go:168-187 | saving a record succeeds iff the backup root can be made and written, and writes only `<id>.json` there |
| Storage.LoadBackupInfo | internal/storage/storage.go:190-208 | a record loads iff its document is parsed, with "backup not found" exactly for an absent one |
| Storage.SaveThenLoadBackupInfo | internal/storage/storage.go:168-208 | a saved record loads back equal |
| Storage.DeleteBackupEffect | internal/storage/storage.go:242-269 | an absent record is an error that changes nothing; otherwise every copy it names is removed, and the record is removed iff the store is writable |
| Storage.DeleteEachKeepsProjects | internal/storage/storage.go:292-296 | the cleanup deletions touch neither projects nor state and keep the store well formed |
| Storage.DeleteEachOnlyRemoves | internal/storage/storage.go:292-296 | the cleanup deletions never add a record |
| Storage.DeleteEachKeepsOthers | internal/storage/storage.go:292-296 | records not in the deletion list are untouched |
| Storage.DeleteEachRemovesRecords | internal/storage/storage.go:292-296 | every listed id whose record loads is gone afterwards, even when other deletions fail |
| Storage.SortNewestFirst | internal/storage/storage.go:283-289 | the exchange sort leaves timestamps non-increasing and is a permutation |
| Storage.Storage.constructor | internal/storage/storage.go:18-22 | a new store views the data directory and the backup root exactly as they are on disk, and satisfies `Valid` |
| Storage.Storage.SaveProject | internal/storage/storage.go:25-44 | the new state and result are those of `SaveProjectEffect` |
| Storage.Storage.ListProjects | internal/storage/storage.go:84-113 | returns the listed projects |
| Storage.Storage.LoadProjectByName | internal/storage/storage.go:68-81 | the search loop returns `ProjectByName` |
| Storage.Storage.DeleteProject | internal/storage/storage.go:116-128 | the new state and result are those of `DeleteProjectEffect` |
| Storage.Storage.SaveAppState | internal/storage/storage.go:131-144 | the new state and result are those of `SaveAppStateEffect` |
| Storage.Storage.SaveBackupInfo | internal/storage/storage.go:168-187 | the new state and result are those of `SaveBackupInfoEffect` |
| Storage.Storage.ListBackups | internal/storage/storage.go:211-239 | returns the listed backup records |
| Storage.Storage.DeleteBackup | internal/storage/storage.go:242-269 | the removal loop and the final delete give `DeleteBackupEffect` |
| Storage.Storage.CleanupOldBackups | internal/storage/storage.go:272-299 | always succeeds; with at most keepCount backups nothing changes; otherwise the backups sorted newest first (a permutation of the listing) are deleted from position keepCount on |
| Storage.Storage.DeleteAll | internal/storage/storage.go:292-296 | deletes each id in turn, continuing after failures |
| ProjectManager.ResolveProject | internal/project/project.go:52-66 | an identifier resolves iff it loads as an id or names a listed project; the id wins; otherwise "project not found" with the identifier |
| ProjectManager.ResolvedAtOwnName | internal/project/project.go:52-66 | on a registry, a resolved project is the document stored under its own id |
| ProjectManager.NotFoundIsFree | internal/storage/storage.go:68-81 | a name no listed project has is used by no listed document |
| ProjectManager.SaveKeepsRegistry | internal/storage/storage.go:25-44 | saving a project with unique environment names, under a name no other listed document uses, keeps the registry invariant (distinct names, each listed project under its own id, unique project and environment names) |
| ProjectManager.SaveEditKeepsRegistry | internal/project/project.go:100-104 | re-saving a resolved project that keeps its id and name keeps the registry invariant |
| ProjectManager.CreateProjectEffect | internal/project/project.go:24-49 | creation succeeds iff the name is non-empty, no listed project has it and the save succeeds; the new project has the fresh id, the name, the description and no environments; an empty name and a taken name are refused without a change |
| ProjectManager.FoundByOwnName | internal/storage/storage.go:68-81 | on a registry, a project stored under its own id is what a search by its name returns |
| ProjectManager.CreateThenResolve | internal/project/project.go:24-49 | a created project keeps the registry invariant and is then found both by its id and by its name |
| ProjectManager.CreateKeepsRegistry | internal/project/project.go:24-49 | creation keeps the registry invariant |
| ProjectManager.RenameRequest | internal/project/project.go:81-82 | a rename is requested exactly by a non-empty string under "name" |
| ProjectManager.DescriptionRequest | internal/project/project.go:92-93 | a description is applied exactly when a string is given |
| ProjectManager.TagsRequest | internal/project/project.go:187-188 | tags are applied exactly when a string list is given |
| ProjectManager.ApplyProjectUpdates | internal/project/project.go:80-98 | the update keeps id, creation time and environments, and takes the requested name and description or keeps the old ones |
| ProjectManager.UpdateProjectEffect | internal/project/project.go:74-105 | an unresolved identifier and a rename to a name held by another id are errors without change; any other resolved update saves the updated project (identity, creation time and environments kept) and is accepted exactly when that save succeeds |
| ProjectManager.RenameToOwnNameAllowed | internal/project/project.go:84-87 | renaming a project to its own name is never a conflict |
| ProjectManager.SelfRenameAccepted | internal/project/project.go:80-104 | an update that renames a project to its own name is accepted exactly when the save succeeds |
| ProjectManager.UpdateProjectKeepsRegistry | internal/project/project.go:74-105 | updates keep the registry invariant |
| ProjectManager.DeleteResolvedEffect | internal/project/project.go:108-115 | delete resolves the identifier and deletes by the resolved project's id |
| ProjectManager.DeleteForgetsProject | internal/project/project.go:108-115 | after a delete the project loads neither by id nor by name, and the registry invariant holds |
| ProjectManager.FirstEnv | internal/project/project.go:155-160 | the first environment whose id or name is the identifier, with no earlier match |
| ProjectManager.FindEnvironment | internal/project/project.go:211-217 | the search loop returns that index, or -1 |
| ProjectManager.ScanNames | internal/project/project.go:172-176 | the scan reports exactly whether another environment has the name |
| ProjectManager.Completed | internal/project/project.go:131-138 | an added environment gets an id only if it had none and a creation time only if it had the zero one; the update time is set |
| ProjectManager.AddEnvironmentTo | internal/project/project.go:124-141 | adding fails iff the name is present; otherwise exactly one environment is appended at the end and the others are unchanged |
| ProjectManager.AddEnvironmentKeepsUnique | internal/project/project.go:124-140 | environment names stay unique and the new name occurs at the end only |
| ProjectManager.EditEnvironment | internal/project/project.go:166-193 | an edit keeps id, creation time, switch time and files, and takes the requested name, description and tags |
| ProjectManager.UpdateEnvironmentIn | internal/project/project.go:153-194 | no match is "not found"; a rename fails iff a sibling has the name; otherwise only the matching environment is replaced |
| ProjectManager.UpdateEnvironmentKeepsUnique | internal/project/project.go:169-178 | environment names stay unique after an update |
| ProjectManager.SelfRenameAllowed | internal/project/project.go:172-176 | keeping an environment's own name never conflicts |
| ProjectManager.RemoveEnvironmentFrom | internal/project/project.go:210-225 | removal fails iff nothing matches; otherwise exactly the first match is spliced out and the rest keep their order |
| ProjectManager.RemoveEnvironmentKeepsUnique | internal/project/project.go:224 | removal takes exactly the matched environment out of the multiset and keeps names unique |
| ProjectManager.EnvironmentOf | internal/project/project.go:237-243 | found iff some environment matches by id or name, and then it is the first match |
| ProjectManager.SaveEdit | internal/project/project.go:143 | an edit that failed changes nothing; otherwise the edited project is saved |
| ProjectManager.AddEnvironmentEffect | internal/project/project.go:118-144 | resolve, add and save |
| ProjectManager.UpdateEnvironmentEffect | internal/project/project.go:147-201 | resolve, update and save, returning the edited environment |
| ProjectManager.RemoveEnvironmentEffect | internal/project/project.go:204-228 | resolve, remove and save |
| ProjectManager.AddEnvironmentKeepsRegistry | internal/project/project.go:118-144 | adding an environment keeps the registry invariant |
| ProjectManager.UpdateEnvironmentKeepsRegistry | internal/project/project.go:147-201 | updating an environment keeps the registry invariant |
| ProjectManager.RemoveEnvironmentKeepsRegistry | internal/project/project.go:204-228 | removing an environment keeps the registry invariant |
| ProjectManager.Manager.GetProject | internal/project/project.go:52-66 | returns `ResolveProject` |
| ProjectManager.Manager.ListProjects | internal/project/project.go:69-71 | returns the listed projects |
| ProjectManager.Manager.CreateProject | internal/project/project.go:24-49 | new state and result are those of `CreateProjectEffect` |
| ProjectManager.Manager.UpdateProject | internal/project/project.go:74-105 | new state and result are those of `UpdateProjectEffect` |
| ProjectManager.Manager.DeleteProject | internal/project/project.go:108-115 | new state and result are those of `DeleteResolvedEffect` |
| ProjectManager.Manager.AddEnvironment | internal/project/project.go:118-144 | new state and result are those of `AddEnvironmentEffect` |
| ProjectManager.Manager.UpdateEnvironment | internal/project/project.go:147-201 | new state and result are those of `UpdateEnvironmentEffect` |
| ProjectManager.Manager.RemoveEnvironment | internal/project/project.go:204-228 | new state and result are those of `RemoveEnvironmentEffect` |
| ProjectManager.Manager.GetEnvironment | internal/project/project.go:231-244 | the resolution error, or the first environment matching by id or name |
| ProjectManager.Manager.ListEnvironments | internal/project/project.go:247-254 | the resolution error, or the project's environments in order |
| FileManager.BackupPath | internal/file/file.go:173-174 | a copy is named inside its backup directory |
| FileManager.BackupPathsDiffer | internal/file/file.go:173-174 | copies named with different uuids never collide |
| FileManager.SwitchOne | internal/file/file.go:88-106 | one file switches iff its source exists, its target's directory can be made and the target can be created; a missing source is reported as such; a failure writes nothing |
| FileManager.SwitchFilesOnlyTargets | internal/file/file.go:55-61 | the switch loop writes no path other than the targets |
| FileManager.SwitchFilesDeliver | internal/file/file.go:55-61 | a switch that completes leaves every target holding its source's bytes and mode (no target twice, no source a target) |
| FileManager.SwitchFilesFirstFailure | internal/file/file.go:55-60 | at the first failing file the earlier files are switched, the later ones are not attempted, and the error names that file's target |
| FileManager.FirstWithId | internal/file/file.go:43-48 | the first environment with the id, with no earlier match |
| FileManager.BackupLoopOutside | internal/file/file.go:166-182 | the backup loop writes only inside the backup directory |
| FileManager.BackupStep | internal/file/file.go:173-181 | each new copy gets a fresh name, so earlier copies survive |
| FileManager.BackupLoopKeys | internal/file/file.go:163-182 | the backup map's keys are exactly the environment's targets that exist |
| FileManager.BackupLoopCopies | internal/file/file.go:172-181 | every recorded copy holds its target's bytes and mode |
| FileManager.CreateBackupEffect | internal/file/file.go:137-198 | a backup changes only files and backup records; a failure saves no record; success returns `ids(0)`; an unknown project or environment changes nothing |
| FileManager.BackupLoopFailsAt | internal/file/file.go:163-182 | a failing backup loop fails at an existing target i, and the loop over the files before i succeeds and leaves the same files |
| FileManager.BackupLoopKeepsCopies | internal/file/file.go:163-182 | a backup loop failing at file i leaves, inside its directory, a copy of every earlier target that existed, with that target's bytes and mode |
| FileManager.BackupFailureKeepsCopies | internal/file/file.go:177-179 | a backup whose copy of target i fails saves no record, and the copies already made of the earlier existing targets stay on disk holding their content |
| FileManager.BackupOnlyWritesItsDirectory | internal/file/file.go:157-182 | whether it succeeds or not, a backup leaves every file outside its directory untouched |
| FileManager.BackupRecordsExistingTargets | internal/file/file.go:163-195 | the saved record has the backup's id, time, project and environment; its keys are exactly the existing targets, each mapped to a copy in the backup directory holding the target's old bytes and mode |
| FileManager.RestoreLoopAppend | internal/file/file.go:209-213 | one more restore step after successful ones, as the loop takes it |
| FileManager.RestoreLoopStops | internal/file/file.go:210-212 | keys after the first failed restore are never visited |
| FileManager.RestoreLoopOutcome | internal/file/file.go:209-213 | when no copy is a target, the restore succeeds iff every copy exists and every target can be created; then each target holds its copy and nothing else changes |
| FileManager.RestoreByMap | internal/file/file.go:209-213 | a restore visiting every key once succeeds iff every copy exists and every target is writable, and then leaves each target holding its copy and every other path as it was, whatever the order |
| FileManager.RestoreOrderIrrelevant | internal/file/file.go:209 | when no copy is a target, the visiting order of the backup map does not change whether the restore succeeds, nor the files it leaves when it does |
| FileManager.RollbackEffect | internal/file/file.go:201-222 | rollback changes only files and state; a missing record is a load failure without change; success leaves the empty state; a failed restore leaves the state as it was |
| FileManager.SwitchStage | internal/file/file.go:28-61 | a switch that stops before the file loop has failed |
| FileManager.StageFacts | internal/file/file.go:28-61 | past the backup, the switch works on the project as loaded and on the files after the backup |
| FileManager.BackupFailureWritesNoTarget | internal/file/file.go:28-33 | a failed backup (unknown project or environment included) is reported as such and changes no project, state, record or file outside the new backup directory |
| FileManager.SwitchSuccess | internal/file/file.go:63-83 | a successful switch records (project, environment, now, backup id) as the state, leaves the stored project unchanged, and, when no mapping reads or writes one of the store's own documents, every target holds its source's bytes and mode |
| FileManager.SwitchFailureNamesTarget | internal/file/file.go:55-60 | a failing switch runs the rollback, discards its result and returns an error naming one of the environment's targets |
| FileManager.RestoreUndoesSwitch | internal/file/file.go:209-213 | restoring from untouched copies brings every recorded target back and leaves other paths as they were |
| FileManager.SwitchFailureRestores | internal/file/file.go:56-59 | after a failed switch whose rollback succeeds, the state is empty, and, when no mapping reads or writes one of the store's own documents, every target that existed is back to its old bytes and mode |
| FileManager.SwitchThenRollbackRestores | internal/file/file.go:201-222 | rolling back a successful switch's backup empties the state, and, when no mapping reads or writes one of the store's own documents, restores every target that existed and leaves the other targets as switched |
| FileManager.ValidateFileConfig | internal/file/file.go:230-253 | valid iff both paths are non-empty, the source exists and the target's directory is "." or can be made; the first failing check is the error |
| FileManager.AddFileTo | internal/file/file.go:295-298 | the mapping is appended to that environment only, and the others are unchanged |
| FileManager.AddFileConfigEffect | internal/file/file.go:256-301 | a failed validation, an unloadable project, an unknown environment and a target already mapped there are refused with their own error and change nothing; otherwise the mapping is appended to that environment and the outcome is that of saving the project |
| FileManager.FirstFileWithId | internal/file/file.go:324-330 | the first mapping with the id, with no earlier match |
| FileManager.RemoveFileFrom | internal/file/file.go:336-340 | exactly the mapping at the index is removed and the rest keep their order |
| FileManager.RemoveFileConfigEffect | internal/file/file.go:304-343 | an unloadable project, an unknown environment and an unknown mapping id are refused with their own error and change nothing; otherwise the first mapping with the id is spliced out and the outcome is that of saving the project |
| FileManager.SaveKeepsTargetsUnique | internal/storage/storage.go:25-44 | saving a project whose environments map each target once keeps that true for the store |
| FileManager.LoadedIsListed | internal/storage/storage.go:47-65 | a loaded project is a listed entry under its own id |
| FileManager.AddFileConfigKeepsTargetsUnique | internal/file/file.go:288-300 | adding a mapping keeps targets unique within every environment |
| FileManager.RemoveFileConfigKeepsTargetsUnique | internal/file/file.go:336-342 | removing a mapping keeps targets unique within every environment |
| FileManager.IndexOfEnvironment | internal/file/file.go:276-282 | the index loop returns the first environment with the id, or -1 |
| FileManager.IndexOfFile | internal/file/file.go:324-330 | the index loop returns the first mapping with the id, or -1 |
| FileManager.HasTarget | internal/file/file.go:289-293 | the scan reports exactly whether the target is already mapped |
| FileManager.Manager.CopyFile | internal/file/file.go:109-134 | the files become those of `Copy` and nothing else changes |
| FileManager.Manager.SwitchFile | internal/file/file.go:88-106 | the files become those of `SwitchOne` |
| FileManager.Manager.CreateBackup | internal/file/file.go:137-198 | the copy loop and the save give `CreateBackupEffect` |
| FileManager.Manager.RollbackFromBackup | internal/file/file.go:201-222 | the visited order covers every key of the loaded record once, and the outcome is `RollbackEffect` for that order |
| FileManager.Manager.SwitchEnvironment | internal/file/file.go:28-85 | the outcome is `SwitchEffect`, with a rollback order that fits the backup |
| FileManager.Manager.GetCurrentState | internal/file/file.go:225-227 | returns the stored state |
| FileManager.Manager.AddFileConfig | internal/file/file.go:256-301 | the new state and result are those of `AddFileConfigEffect` |
| FileManager.Manager.RemoveFileConfig | internal/file/file.go:304-343 | the new state and result are those of `RemoveFileConfigEffect` |
| FileManager.Manager.CleanupOldBackups | internal/file/file.go:346-348 | hands over to the store's cleanup, with the same outcome |
| Config.RecordHistory | internal/config/config.go:251-270 | the original directory is set to the old one only when empty; the history gains the old directory at its end unless already present; nothing else changes |
| Config.RecordHistoryRemembers | internal/config/config.go:258-269 | the old directory is in the history afterwards, the old entries stay in place, and the history grows by at most one |
| Config.RecordHistoryKeepsDistinct | internal/config/config.go:262-269 | a history without duplicates stays without duplicates |
| Config.RecordHistoryIdempotent | internal/config/config.go:262-267 | recording the same directory twice equals recording it once |
| Config.HasData | internal/config/config.go:226-248 | true iff `projects/` can be listed and holds a plain file ending in ".json"; an unreadable directory is an error; a missing one has no data |
| Config.CheckDataDirHasData | internal/config/config.go:226-248 | the scan loop computes `HasData` for `<dataDir>/projects` |
| Config.ChangeDataDir | internal/config/config.go:171-223 | with the check off, only the directory changes; with no data, the directory changes and the old one is recorded; with data present, confirmation is needed and nothing changes; a failed check is an error without change |
| Config.ChangeDataDirOutcome | internal/config/config.go:173-193 | a successful change lands on the new directory and leaves the other settings; the history is touched only with the check on, and then records the old directory |
| Config.ApplyFields | internal/config/config.go:142-165 | the typed field updates never touch the data directory or its history |
| Config.UpdateConfigEffect | internal/config/config.go:129-168 | an error means a data-directory change was requested and refused, and nothing changed; without such a request only the typed fields are applied; an accepted change applies the typed fields on top of the changed directory |
| Config.UpdateFieldsTyped | internal/config/config.go:142-165 | backup dir, web port, default project and the data-check switch are set exactly when given with the expected type, else kept |
| Config.DataDirChangeApplied | internal/config/config.go:133-140 | after an accepted data-directory change the configuration is on the new directory; with the check on, the old directory is in the history and earlier entries are kept |
| Config.SameDataDirSkipped | internal/config/config.go:133-140 | a `data_dir` equal to the current directory, or not a string, leaves the directory and its history alone |
| Config.ApplyFieldsIdempotent | internal/config/config.go:142-165 | applying the same updates twice equals applying them once |
| Config.Config.UpdateDataDirHistory | internal/config/config.go:251-270 | the duplicate scan and append give `RecordHistory` |
| Config.Config.HandleDataDirChange | internal/config/config.go:171-193 | the new settings and result are those of `ChangeDataDir` |
| Config.Config.UpdateConfig | internal/config/config.go:129-167 | the new settings and result are those of `UpdateConfigEffect` |
| Config.Config.SetTypedFields | internal/config/config.go:142-165 | the new settings are those of `ApplyFields` |
| ProjectCommand.TruncateString | cmd/project.go:236-241 | a string that fits is returned unchanged; a longer one becomes exactly maxLen bytes, its first maxLen-3 bytes followed by "..." |
| ProjectCommand.TruncateFits | cmd/project.go:236-241 | the result never exceeds maxLen and is s or s cut short and marked |
| ProjectCommand.TruncateIdempotent | cmd/project.go:236-241 | truncating a truncated string again changes nothing |

## Left out

- Directories are not modelled. `os.MkdirAll` is a check against fixed failure points and creates nothing.
  `ValidateFileConfig` therefore has no side effect.
- Paths are plain strings. `filepath.Join` is concatenation with "/", and `filepath.Dir`/`filepath.Base` are
  modelled for clean paths only. `..` and repeated separators are not resolved.
- The contents of a copy are one atomic step. `io.Copy`, the partial writes it can leave behind, and os.Stat/Chmod
  failures after a copy are not modelled.
- A target that is a directory, and an `os.Stat` error other than "does not exist", are not modelled.
- JSON is not modelled: documents are stored as values. Marshalling errors cannot happen to these types, and a
  document that does not parse is a distinct entry kind.
- Read/ReadDir errors other than a sub-directory where a document is expected are not modelled. A missing listing
  directory is an empty listing.
- `os.Remove` of a backup copy is assumed to succeed. `DeleteBackup` itself only prints a warning when it fails
  (internal/storage/storage.go:255-257), whoever calls it.
- FileManager.RestoreOrderIrrelevant: makes no claim about a failing restore. There the visiting order decides
  which target the error names and which targets are already restored, as Go's map order does.
- In DeleteBackup's final `os.Remove` (internal/storage/storage.go:262-263) the "does not exist" branch cannot be
  reached after a successful load in a single-threaded run. The model reports a generic removal failure instead.
- Error texts and log lines (`fmt.Printf` warnings) are left out. Errors are kinds with their key, and the
  `%w` wrapping is kept only where it tells outcomes apart.
- uuid generation and the wall clock are parameters. One `now` stands for the several `time.Now()` calls an
  operation makes (for example an environment's and its project's update times are equal in the model).
- `SwitchEnvironment` and `CreateBackup` build their own `Storage` in Go. Here they use the manager's store,
  which holds the same directories.
- FileManager.SwitchSuccess, FileManager.SwitchFailureRestores and FileManager.SwitchThenRollbackRestores: plain
  files and the store's own documents (`state.json`, the project documents, the backup records) are modelled as
  disjoint. A mapping whose source or target is one of those documents is not modelled: in Go the saves at
  internal/file/file.go:68, 80 and 217 would overwrite such a target. The three lemmas promise the targets'
  contents only under `ClearOfStore`, which rules such mappings out.
- A rollback does not delete a target that did not exist before the switch. `SwitchThenRollbackRestores`
  states this boundary case, as the system does.
- `AddEnvironment` fills in the caller's environment in place (id, times). The model returns the completed
  environment instead of mutating the argument.
- The listing order of `os.ReadDir` is the listing's own order, and a new document is appended at its end. Go's
  name order is not modelled.
- The configuration's I/O is not part of this model: `InitConfig`, `LoadConfig`, `SaveConfig`,
  `getConfigPath`, `ensureDirectories`, the global singleton and its defaults, and `GetConfig`.
- Config.UpdateConfigEffect: returns success where Go returns the result of the final `SaveConfig`, which is
  not modelled.
- The interactive branches of the data-directory change (`promptUser`, `migrateDataDir`, `forceUpdateDataDir`,
  `copyDir`) are not modelled. With project data present, `ChangeDataDir` stops at `ConfirmationNeeded` and
  makes no change.
- Config.ChangeDataDir: the failure of the data check is reported with a load-failure wrapper, not Go's
  localised message.
- Config.Config.UpdateDataDirHistory: Go's nil and empty history are one value, the empty sequence.
- ProjectCommand.TruncateString works on bytes, as Go's `len` and slicing do. A cut inside a multi-byte UTF-8
  character is kept as Go leaves it.
- The `LastSwitchAt` assignment at internal/file/file.go:65 is on a copy. The model keeps the project unchanged
  and does not add the intended persistence.
- FileManager.Manager.CleanupOldBackups and Storage.Storage.CleanupOldBackups: negative keepCount is excluded
  by precondition, because Go then indexes the slice at -1 and panics.
- Storage.Storage.CleanupOldBackups: ListBackups' read error is not modelled, so the result is always success.
- The CLI (`cmd/*.go` other than `truncateString`), the web server and API, concurrency between requests, and
  the tests are outside this model.
