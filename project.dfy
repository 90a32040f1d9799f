/**
 * The project/environment registry (internal/project/project.go): projects are
 * resolved by id or by name, names are unique among listed projects, and
 * environments are edited in the loaded project, which is then saved whole.
 */
module ProjectManager {
  import opened Results
  import opened Models
  import opened Disk
  import opened Storage

  // ----- the registry invariant -----

  /** No two listed project documents carry the same project name. */
  ghost predicate UniqueProjectNames(st: Store) {
    forall e1, e2 ::
      (e1 in st.projects && e2 in st.projects && Listed(e1) && Listed(e2)
       && e1.body.value.name == e2.body.value.name) ==> e1.name == e2.name
  }

  /** Every listed project lives in the file its own id names. */
  ghost predicate IdsMatchNames(st: Store) {
    forall e :: e in st.projects && Listed(e) ==> e.name == DocName(e.body.value.id)
  }

  ghost predicate UniqueEnvNames(envs: seq<Environment>) {
    forall i, j :: 0 <= i < j < |envs| ==> envs[i].name != envs[j].name
  }

  /** Within every listed project, environment names are unique. */
  ghost predicate EnvNamesUnique(st: Store) {
    forall e :: e in st.projects && Listed(e) ==> UniqueEnvNames(e.body.value.environments)
  }

  ghost predicate Registry(st: Store) {
    WellFormed(st) && UniqueProjectNames(st) && IdsMatchNames(st) && EnvNamesUnique(st)
  }

  /** No listed project outside the file `n` is called name. */
  ghost predicate NameFreeExcept(st: Store, n: string, name: string) {
    forall e :: e in st.projects && Listed(e) && e.name != n ==> e.body.value.name != name
  }

  // ----- resolving a project -----

  /** `GetProject`: the identifier is tried as an id first, then as a name. */
  function ResolveProject(st: Store, identifier: string): (r: Result<Project>)
    ensures r.Ok? <==> Read(st.projects, DocName(identifier)).Loaded?
                       || exists k :: 0 <= k < |ListedProjects(st)| && ListedProjects(st)[k].name == identifier
    ensures Read(st.projects, DocName(identifier)).Loaded? ==>
              r.Ok? && Find(st.projects, DocName(identifier)) == Some(Parsed(r.value))
    ensures r.Ok? && !Read(st.projects, DocName(identifier)).Loaded? ==>
              r.value.name == identifier && r.value in ListedProjects(st)
    ensures r.Err? ==> r.error == ProjectNotFound(identifier)
  {
    match LoadProject(st, identifier)
    case Ok(p) => Ok(p)
    case Err(_) =>
      match ProjectByName(st, identifier)
      case Ok(p) => Ok(p)
      case Err(_) => Err(ProjectNotFound(identifier))
  }

  lemma ListedEntryIsListed(st: Store, e: Entry<Project>)
    requires WellFormed(st) && e in st.projects && Listed(e)
    ensures e.body.value in ListedProjects(st)
  {
    ListedProjectsMembers(st, e.body.value);
  }

  /** A name no listed project carries is free everywhere. */
  lemma NotFoundIsFree(st: Store, name: string)
    requires WellFormed(st) && ProjectByName(st, name).Err?
    ensures NameFreeExcept(st, "", name)
    ensures forall e :: e in st.projects && Listed(e) ==> e.body.value.name != name
  {
    forall e | e in st.projects && Listed(e)
      ensures e.body.value.name != name
    {
      ListedEntryIsListed(st, e);
      var ps := ListedProjects(st);
      var k :| 0 <= k < |ps| && ps[k] == e.body.value;
    }
  }

  /** A project found by name sits in a listed entry. */
  lemma FoundByNameHasEntry(st: Store, name: string) returns (e: Entry<Project>)
    requires WellFormed(st) && ProjectByName(st, name).Ok?
    ensures e in st.projects && Listed(e) && e.body.value == ProjectByName(st, name).value
  {
    ListedProjectsMembers(st, ProjectByName(st, name).value);
    e :| e in st.projects && Listed(e) && e.body.value == ProjectByName(st, name).value;
  }

  /** On a registry, a resolved project is the listed document named by its own id. */
  lemma ResolvedAtOwnName(st: Store, identifier: string)
    requires Registry(st) && ResolveProject(st, identifier).Ok?
    ensures Entry(DocName(ResolveProject(st, identifier).value.id), Parsed(ResolveProject(st, identifier).value)) in st.projects
  {
    var p := ResolveProject(st, identifier).value;
    if Read(st.projects, DocName(identifier)).Loaded? {
      var i :| 0 <= i < |st.projects| && st.projects[i] == Entry(DocName(identifier), Parsed(p));
      DocNameIsJson(identifier);
      assert Listed(st.projects[i]);
    } else {
      var e := FoundByNameHasEntry(st, identifier);
    }
  }

  /** Saving a project whose name no other listed file uses keeps the registry invariant. */
  lemma SaveKeepsRegistry(st: Store, q: Project)
    requires Registry(st) && NameFreeExcept(st, DocName(q.id), q.name)
    requires UniqueEnvNames(q.environments)
    ensures Registry(SaveProjectEffect(st, q).after)
  {
    var eff := SaveProjectEffect(st, q);
    if eff.result.Ok? {
      var n := DocName(q.id);
      var es := eff.after.projects;
      PutKeepsDistinct(st.projects, n, Parsed(q));
      DocNameIsJson(q.id);
      forall e | e in es
        ensures e == Entry(n, Parsed(q)) || (e in st.projects && e.name != n)
      {
        PutMembers(st.projects, n, Parsed(q), e);
      }
    }
  }

  /** Saving an edit of a resolved project that keeps its id and name keeps the registry invariant. */
  lemma SaveEditKeepsRegistry(st: Store, identifier: string, q: Project)
    requires Registry(st) && ResolveProject(st, identifier).Ok?
    requires q.id == ResolveProject(st, identifier).value.id && q.name == ResolveProject(st, identifier).value.name
    requires UniqueEnvNames(q.environments)
    ensures Registry(SaveProjectEffect(st, q).after)
  {
    var p := ResolveProject(st, identifier).value;
    ResolvedAtOwnName(st, identifier);
    DocNameIsJson(p.id);
    assert Listed(Entry(DocName(p.id), Parsed(p)));
    SaveKeepsRegistry(st, q);
  }

  // ----- CreateProject -----

  /** `CreateProject`: reject an empty or taken name, then save a fresh project with no environments. */
  function CreateProjectEffect(st: Store, name: string, description: string, newId: string, now: Time): (e: Effect<Project>)
    ensures e.result.Ok? <==> name != "" && (forall k :: 0 <= k < |ListedProjects(st)| ==> ListedProjects(st)[k].name != name)
                              && SaveProjectEffect(st, Project(newId, name, description, now, now, [])).result.Ok?
    ensures name == "" ==> e.result == Err(EmptyProjectName)
    ensures name != "" && ProjectByName(st, name).Ok? ==> e.result == Err(ProjectNameTaken(name))
    ensures e.result.Ok? ==> e.result.value.id == newId && e.result.value.name == name
                             && e.result.value.description == description && e.result.value.environments == []
    ensures e.result.Ok? ==> e.after == SaveProjectEffect(st, e.result.value).after
    ensures e.result.Err? ==> e.after == st
  {
    if name == "" then Effect(st, Err(EmptyProjectName))
    else if ProjectByName(st, name).Ok? then Effect(st, Err(ProjectNameTaken(name)))
    else
      var p := Project(newId, name, description, now, now, []);
      var saved := SaveProjectEffect(st, p);
      Effect(saved.after, if saved.result.Ok? then Ok(p) else Err(saved.result.error))
  }

  /** A created project keeps the registry invariant and can then be found by its id and by its name. */
  lemma CreateThenResolve(st: Store, name: string, description: string, newId: string, now: Time)
    requires Registry(st)
    requires CreateProjectEffect(st, name, description, newId, now).result.Ok?
    ensures var e := CreateProjectEffect(st, name, description, newId, now);
            Registry(e.after) && LoadProject(e.after, newId) == e.result
            && ProjectByName(e.after, name) == e.result
  {
    var e := CreateProjectEffect(st, name, description, newId, now);
    var p := e.result.value;
    NotFoundIsFree(st, name);
    SaveKeepsRegistry(st, p);
    SaveThenLoadProject(st, p);
    var after := e.after;
    assert Find(after.projects, DocName(newId)) == Some(Parsed(p));
    var i :| 0 <= i < |after.projects| && after.projects[i] == Entry(DocName(newId), Parsed(p));
    FoundByOwnName(after, p);
  }

  /** On a registry, a project stored under its own id is what its name finds. */
  lemma FoundByOwnName(st: Store, p: Project)
    requires Registry(st) && Entry(DocName(p.id), Parsed(p)) in st.projects
    ensures ProjectByName(st, p.name) == Ok(p)
  {
    var entry := Entry(DocName(p.id), Parsed(p));
    DocNameIsJson(p.id);
    ListedEntryIsListed(st, entry);
    var ps := ListedProjects(st);
    var k :| 0 <= k < |ps| && ps[k] == p;
    assert ps[k].name == p.name;
    var found := FoundByNameHasEntry(st, p.name);
    SameNameSameEntry(st.projects, found, entry);
  }

  // ----- UpdateProject -----

  /** A rename request: a non-empty string under "name"; anything else is ignored. */
  function RenameRequest(updates: map<string, Value>): (r: Option<string>)
    ensures r.Some? <==> "name" in updates && updates["name"].Str? && updates["name"].s != ""
    ensures r.Some? ==> updates["name"] == Str(r.value) && r.value != ""
  {
    if "name" in updates && updates["name"].Str? && updates["name"].s != "" then Some(updates["name"].s) else None
  }

  /** A new description: any string under "description". */
  function DescriptionRequest(updates: map<string, Value>): (r: Option<string>)
    ensures r.Some? <==> "description" in updates && updates["description"].Str?
    ensures r.Some? ==> updates["description"] == Str(r.value)
  {
    if "description" in updates && updates["description"].Str? then Some(updates["description"].s) else None
  }

  /** New tags: a string list under "tags". */
  function TagsRequest(updates: map<string, Value>): (r: Option<seq<string>>)
    ensures r.Some? <==> "tags" in updates && updates["tags"].Strings?
    ensures r.Some? ==> updates["tags"] == Strings(r.value)
  {
    if "tags" in updates && updates["tags"].Strings? then Some(updates["tags"].items) else None
  }

  function OrElse<T>(o: Option<T>, default: T): T {
    if o.Some? then o.value else default
  }

  /** The project after its update request: identity, creation time and environments are kept. */
  function ApplyProjectUpdates(p: Project, updates: map<string, Value>, now: Time): (r: Project)
    ensures r.id == p.id && r.createdAt == p.createdAt && r.environments == p.environments
    ensures r.name == OrElse(RenameRequest(updates), p.name)
    ensures r.description == OrElse(DescriptionRequest(updates), p.description)
    ensures r.updatedAt == now
  {
    p.(name := OrElse(RenameRequest(updates), p.name),
       description := OrElse(DescriptionRequest(updates), p.description),
       updatedAt := now)
  }

  /** The rename is refused only when the first listed project with the new name has another id. */
  predicate RenameConflict(st: Store, p: Project, updates: map<string, Value>) {
    RenameRequest(updates).Some?
    && ProjectByName(st, RenameRequest(updates).value).Ok?
    && ProjectByName(st, RenameRequest(updates).value).value.id != p.id
  }

  /** `UpdateProject`. */
  function UpdateProjectEffect(st: Store, identifier: string, updates: map<string, Value>, now: Time): (e: Effect<Project>)
    ensures ResolveProject(st, identifier).Err? ==> e == Effect(st, Err(ResolveProject(st, identifier).error))
    ensures ResolveProject(st, identifier).Ok? && RenameConflict(st, ResolveProject(st, identifier).value, updates) ==>
              e == Effect(st, Err(ProjectNameTaken(RenameRequest(updates).value)))
    ensures e.result.Ok? ==> ResolveProject(st, identifier).Ok?
                             && e.result.value == ApplyProjectUpdates(ResolveProject(st, identifier).value, updates, now)
                             && e.after == SaveProjectEffect(st, e.result.value).after
    ensures e.result.Err? ==> e.after == st
    // A resolved update that does not clash with another project's name is
    // accepted exactly when its save succeeds.
    ensures ResolveProject(st, identifier).Ok? && !RenameConflict(st, ResolveProject(st, identifier).value, updates) ==>
              var q := ApplyProjectUpdates(ResolveProject(st, identifier).value, updates, now);
              e.after == SaveProjectEffect(st, q).after
              && (e.result.Ok? <==> SaveProjectEffect(st, q).result.Ok?)
              && (e.result.Err? ==> e.result.error == SaveProjectEffect(st, q).result.error)
  {
    match ResolveProject(st, identifier)
    case Err(err) => Effect(st, Err(err))
    case Ok(p) =>
      if RenameConflict(st, p, updates) then Effect(st, Err(ProjectNameTaken(RenameRequest(updates).value)))
      else
        var q := ApplyProjectUpdates(p, updates, now);
        var saved := SaveProjectEffect(st, q);
        Effect(saved.after, if saved.result.Ok? then Ok(q) else Err(saved.result.error))
  }

  /** Renaming a project to the name it already has is never a conflict. */
  lemma RenameToOwnNameAllowed(st: Store, identifier: string, updates: map<string, Value>)
    requires Registry(st) && ResolveProject(st, identifier).Ok?
    requires RenameRequest(updates) == Some(ResolveProject(st, identifier).value.name)
    ensures !RenameConflict(st, ResolveProject(st, identifier).value, updates)
  {
    var p := ResolveProject(st, identifier).value;
    ResolvedAtOwnName(st, identifier);
    var own := Entry(DocName(p.id), Parsed(p));
    DocNameIsJson(p.id);
    ListedEntryIsListed(st, own);
    var ps := ListedProjects(st);
    var k :| 0 <= k < |ps| && ps[k] == p;
    assert ps[k].name == p.name;
    var found := FoundByNameHasEntry(st, p.name);
    SameNameSameEntry(st.projects, found, own);
  }

  /** A self-rename is accepted exactly when the save succeeds. */
  lemma SelfRenameAccepted(st: Store, identifier: string, updates: map<string, Value>, now: Time)
    requires Registry(st) && ResolveProject(st, identifier).Ok?
    requires RenameRequest(updates) == Some(ResolveProject(st, identifier).value.name)
    ensures var q := ApplyProjectUpdates(ResolveProject(st, identifier).value, updates, now);
            UpdateProjectEffect(st, identifier, updates, now).result.Ok? <==> SaveProjectEffect(st, q).result.Ok?
  {
    RenameToOwnNameAllowed(st, identifier, updates);
  }

  lemma UpdateProjectKeepsRegistry(st: Store, identifier: string, updates: map<string, Value>, now: Time)
    requires Registry(st)
    ensures Registry(UpdateProjectEffect(st, identifier, updates, now).after)
  {
    var e := UpdateProjectEffect(st, identifier, updates, now);
    if e.result.Ok? {
      var p := ResolveProject(st, identifier).value;
      var q := e.result.value;
      ResolvedAtOwnName(st, identifier);
      var n := DocName(p.id);
      var own := Entry(n, Parsed(p));
      DocNameIsJson(p.id);
      assert Listed(own);
      var rename := RenameRequest(updates);
      if rename.None? {
        assert q.name == p.name;
      } else if ProjectByName(st, rename.value).Err? {
        NotFoundIsFree(st, rename.value);
      } else {
        var found := FoundByNameHasEntry(st, rename.value);
        assert found.name == n;
      }
      assert NameFreeExcept(st, n, q.name);
      SaveKeepsRegistry(st, q);
    }
  }

  // ----- DeleteProject -----

  /** `DeleteProject`: resolve, then delete by the resolved project's id. */
  function DeleteResolvedEffect(st: Store, identifier: string): (e: Effect<Unit>)
    ensures ResolveProject(st, identifier).Err? ==> e == Effect(st, Err(ResolveProject(st, identifier).error))
    ensures ResolveProject(st, identifier).Ok? ==> e == DeleteProjectEffect(st, ResolveProject(st, identifier).value.id)
  {
    match ResolveProject(st, identifier)
    case Err(err) => Effect(st, Err(err))
    case Ok(p) => DeleteProjectEffect(st, p.id)
  }

  /** After a successful delete the project is gone by id and by name, and the registry invariant holds. */
  lemma DeleteForgetsProject(st: Store, identifier: string)
    requires Registry(st) && DeleteResolvedEffect(st, identifier).result.Ok?
    ensures var p := ResolveProject(st, identifier).value;
            var after := DeleteResolvedEffect(st, identifier).after;
            Registry(after) && LoadProject(after, p.id) == Err(ProjectNotFound(p.id))
            && ProjectByName(after, p.name).Err?
  {
    var p := ResolveProject(st, identifier).value;
    var n := DocName(p.id);
    var after := DeleteResolvedEffect(st, identifier).after;
    ResolvedAtOwnName(st, identifier);
    DocNameIsJson(p.id);
    var own := Entry(n, Parsed(p));
    assert Listed(own);
    DeleteThenLoadProject(st, p.id);
    DropKeepsDistinct(st.projects, n);
    forall e | e in after.projects
      ensures e in st.projects && e.name != n
    {
      DropMembers(st.projects, n, e);
    }
    if ProjectByName(after, p.name).Ok? {
      var found := FoundByNameHasEntry(after, p.name);
      assert false;
    }
  }

  // ----- environments -----

  predicate Matches(e: Environment, identifier: string) {
    e.id == identifier || e.name == identifier
  }

  /** The index of the first environment whose id or name is the identifier. */
  function FirstEnv(envs: seq<Environment>, identifier: string): (r: Option<nat>)
    ensures r.Some? ==> r.value < |envs| && Matches(envs[r.value], identifier)
    ensures r.Some? ==> forall k :: 0 <= k < r.value ==> !Matches(envs[k], identifier)
    ensures r.None? <==> forall k :: 0 <= k < |envs| ==> !Matches(envs[k], identifier)
  {
    if envs == [] then None
    else if Matches(envs[0], identifier) then Some(0)
    else match FirstEnv(envs[1..], identifier)
      case None => None
      case Some(k) => Some(k + 1)
  }

  /** Some environment other than the one at skip is called name. */
  predicate NameUsed(envs: seq<Environment>, name: string, skip: int) {
    exists i :: 0 <= i < |envs| && i != skip && envs[i].name == name
  }

  /** The linear search loop shared by the environment operations. */
  method FindEnvironment(envs: seq<Environment>, identifier: string) returns (index: int)
    ensures FirstEnv(envs, identifier).None? ==> index == -1
    ensures FirstEnv(envs, identifier).Some? ==> index == FirstEnv(envs, identifier).value
  {
    index := 0;
    while index < |envs|
      invariant 0 <= index <= |envs|
      invariant forall k :: 0 <= k < index ==> !Matches(envs[k], identifier)
    {
      if Matches(envs[index], identifier) {
        return;
      }
      index := index + 1;
    }
    index := -1;
  }

  /** The duplicate-name scan: is name used by an environment other than the one at skip? */
  method ScanNames(envs: seq<Environment>, name: string, skip: int) returns (taken: bool)
    ensures taken <==> NameUsed(envs, name, skip)
  {
    var i := 0;
    while i < |envs|
      invariant 0 <= i <= |envs|
      invariant forall k :: 0 <= k < i && k != skip ==> envs[k].name != name
    {
      if i != skip && envs[i].name == name {
        return true;
      }
      i := i + 1;
    }
    taken := false;
  }

  /** The environment as `AddEnvironment` stores it: an id if it had none, a
      creation time if it had the zero one, and `now` as its update time. */
  function Completed(env: Environment, newId: string, now: Time): (r: Environment)
    ensures r.id == (if env.id == "" then newId else env.id)
    ensures r.createdAt == (if env.createdAt == ZeroTime then now else env.createdAt)
    ensures r.updatedAt == now
    ensures r.name == env.name && r.description == env.description && r.tags == env.tags
            && r.lastSwitchAt == env.lastSwitchAt && r.files == env.files
  {
    env.(id := if env.id == "" then newId else env.id,
         createdAt := if env.createdAt == ZeroTime then now else env.createdAt,
         updatedAt := now)
  }

  /** The project edit of `AddEnvironment`: refuse a name already present, else append. */
  function AddEnvironmentTo(p: Project, env: Environment, newId: string, now: Time): (r: Result<Project>)
    ensures r.Err? <==> exists k :: 0 <= k < |p.environments| && p.environments[k].name == env.name
    ensures r.Err? ==> r.error == EnvironmentNameTaken(env.name)
    ensures r.Ok? ==> |r.value.environments| == |p.environments| + 1
                      && r.value.environments[..|p.environments|] == p.environments
                      && r.value.environments[|p.environments|] == Completed(env, newId, now)
    ensures r.Ok? ==> r.value.id == p.id && r.value.name == p.name && r.value.updatedAt == now
  {
    if NameUsed(p.environments, env.name, -1) then Err(EnvironmentNameTaken(env.name))
    else Ok(p.(environments := p.environments + [Completed(env, newId, now)], updatedAt := now))
  }

  lemma AddEnvironmentKeepsUnique(p: Project, env: Environment, newId: string, now: Time)
    requires UniqueEnvNames(p.environments) && AddEnvironmentTo(p, env, newId, now).Ok?
    ensures var envs := AddEnvironmentTo(p, env, newId, now).value.environments;
            UniqueEnvNames(envs)
            && forall k :: 0 <= k < |envs| && envs[k].name == env.name ==> k == |p.environments|
  {
    var envs := AddEnvironmentTo(p, env, newId, now).value.environments;
    forall k | 0 <= k < |p.environments|
      ensures envs[k] == p.environments[k]
    {
      assert envs[..|p.environments|][k] == envs[k];
    }
  }

  /** The environment after an update request: identity, files and switch time are kept. */
  function EditEnvironment(e: Environment, updates: map<string, Value>, now: Time): (r: Environment)
    ensures r.id == e.id && r.createdAt == e.createdAt && r.lastSwitchAt == e.lastSwitchAt && r.files == e.files
    ensures r.name == OrElse(RenameRequest(updates), e.name)
    ensures r.description == OrElse(DescriptionRequest(updates), e.description)
    ensures r.tags == OrElse(TagsRequest(updates), e.tags)
    ensures r.updatedAt == now
  {
    e.(name := OrElse(RenameRequest(updates), e.name),
       description := OrElse(DescriptionRequest(updates), e.description),
       tags := OrElse(TagsRequest(updates), e.tags),
       updatedAt := now)
  }

  /** The project edit of `UpdateEnvironment`: the first match is edited in place; a
      rename conflicts only with a sibling. */
  function UpdateEnvironmentIn(p: Project, identifier: string, updates: map<string, Value>, now: Time): (r: Result<(Project, Environment)>)
    ensures FirstEnv(p.environments, identifier).None? ==> r == Err(EnvironmentNotFound(identifier))
    ensures FirstEnv(p.environments, identifier).Some? ==>
              var k := FirstEnv(p.environments, identifier).value;
              (r.Err? <==> RenameRequest(updates).Some? && NameUsed(p.environments, RenameRequest(updates).value, k))
              && (r.Err? ==> r.error == EnvironmentNameTaken(RenameRequest(updates).value))
              && (r.Ok? ==> r.value.1 == EditEnvironment(p.environments[k], updates, now)
                            && r.value.0.environments == p.environments[k := r.value.1])
    ensures r.Ok? ==> r.value.0.id == p.id && r.value.0.name == p.name && r.value.0.updatedAt == now
  {
    match FirstEnv(p.environments, identifier)
    case None => Err(EnvironmentNotFound(identifier))
    case Some(k) =>
      var rename := RenameRequest(updates);
      if rename.Some? && NameUsed(p.environments, rename.value, k) then Err(EnvironmentNameTaken(rename.value))
      else
        var e := EditEnvironment(p.environments[k], updates, now);
        Ok((p.(environments := p.environments[k := e], updatedAt := now), e))
  }

  lemma UpdateEnvironmentKeepsUnique(p: Project, identifier: string, updates: map<string, Value>, now: Time)
    requires UniqueEnvNames(p.environments) && UpdateEnvironmentIn(p, identifier, updates, now).Ok?
    ensures UniqueEnvNames(UpdateEnvironmentIn(p, identifier, updates, now).value.0.environments)
  {
    var k := FirstEnv(p.environments, identifier).value;
    var envs := UpdateEnvironmentIn(p, identifier, updates, now).value.0.environments;
    forall i, j | 0 <= i < j < |envs|
      ensures envs[i].name != envs[j].name
    {
      if RenameRequest(updates).Some? && (i == k || j == k) {
        assert !NameUsed(p.environments, RenameRequest(updates).value, k);
        if i == k {
          assert p.environments[j].name != RenameRequest(updates).value;
        } else {
          assert p.environments[i].name != RenameRequest(updates).value;
        }
      }
    }
  }

  /** Updating an environment with its own current name is never a conflict. */
  lemma SelfRenameAllowed(p: Project, identifier: string, updates: map<string, Value>, now: Time)
    requires UniqueEnvNames(p.environments) && FirstEnv(p.environments, identifier).Some?
    requires RenameRequest(updates) == Some(p.environments[FirstEnv(p.environments, identifier).value].name)
    ensures UpdateEnvironmentIn(p, identifier, updates, now).Ok?
  {
    var k := FirstEnv(p.environments, identifier).value;
    var envs := p.environments;
    forall i | 0 <= i < |envs| && i != k
      ensures envs[i].name != envs[k].name
    {
      if i < k {
        assert envs[i].name != envs[k].name;
      } else {
        assert envs[k].name != envs[i].name;
      }
    }
  }

  /** The project edit of `RemoveEnvironment`: the first match is spliced out. */
  function RemoveEnvironmentFrom(p: Project, identifier: string, now: Time): (r: Result<Project>)
    ensures r.Err? <==> FirstEnv(p.environments, identifier).None?
    ensures r.Err? ==> r.error == EnvironmentNotFound(identifier)
    ensures r.Ok? ==> var k := FirstEnv(p.environments, identifier).value;
                      |r.value.environments| == |p.environments| - 1
                      && (forall i :: 0 <= i < k ==> r.value.environments[i] == p.environments[i])
                      && (forall i :: k <= i < |r.value.environments| ==> r.value.environments[i] == p.environments[i + 1])
    ensures r.Ok? ==> r.value.id == p.id && r.value.name == p.name && r.value.updatedAt == now
  {
    match FirstEnv(p.environments, identifier)
    case None => Err(EnvironmentNotFound(identifier))
    case Some(k) => Ok(p.(environments := p.environments[..k] + p.environments[k + 1..], updatedAt := now))
  }

  /** Removal keeps names unique and takes exactly the removed environment out of the multiset. */
  lemma RemoveEnvironmentKeepsUnique(p: Project, identifier: string, now: Time)
    requires RemoveEnvironmentFrom(p, identifier, now).Ok?
    ensures var envs := RemoveEnvironmentFrom(p, identifier, now).value.environments;
            var k := FirstEnv(p.environments, identifier).value;
            multiset(envs) + multiset{p.environments[k]} == multiset(p.environments)
            && (UniqueEnvNames(p.environments) ==> UniqueEnvNames(envs))
  {
    var k := FirstEnv(p.environments, identifier).value;
    var envs := p.environments;
    assert envs == envs[..k] + [envs[k]] + envs[k + 1..];
    var r := RemoveEnvironmentFrom(p, identifier, now).value.environments;
    if UniqueEnvNames(envs) {
      forall i, j | 0 <= i < j < |r|
        ensures r[i].name != r[j].name
      {
        var i' := if i < k then i else i + 1;
        var j' := if j < k then j else j + 1;
        assert r[i] == envs[i'] && r[j] == envs[j'];
      }
    }
  }

  /** `GetEnvironment` on a loaded project: the first environment matching by id or name. */
  function EnvironmentOf(p: Project, identifier: string): (r: Result<Environment>)
    ensures r.Ok? <==> exists k :: 0 <= k < |p.environments| && Matches(p.environments[k], identifier)
    ensures r.Ok? ==> Matches(r.value, identifier) && r.value == p.environments[FirstEnv(p.environments, identifier).value]
    ensures r.Err? ==> r.error == EnvironmentNotFound(identifier)
  {
    match FirstEnv(p.environments, identifier)
    case None => Err(EnvironmentNotFound(identifier))
    case Some(k) => Ok(p.environments[k])
  }

  /** Saving the edited project, reporting the given value on success. */
  function SaveEdit<T>(st: Store, edit: Result<Project>, value: T): (e: Effect<T>)
    ensures edit.Err? ==> e == Effect(st, Err(edit.error))
    ensures edit.Ok? ==> e.after == SaveProjectEffect(st, edit.value).after
    ensures edit.Ok? ==> (e.result.Ok? <==> SaveProjectEffect(st, edit.value).result.Ok?)
    ensures e.result.Ok? ==> e.result.value == value
  {
    match edit
    case Err(err) => Effect(st, Err(err))
    case Ok(q) =>
      var saved := SaveProjectEffect(st, q);
      Effect(saved.after, if saved.result.Ok? then Ok(value) else Err(saved.result.error))
  }

  function Edited(st: Store, identifier: string, f: Project -> Result<Project>): Result<Project> {
    match ResolveProject(st, identifier)
    case Err(err) => Err(err)
    case Ok(p) => f(p)
  }

  /** `AddEnvironment`; the result is the environment as stored. */
  function AddEnvironmentEffect(st: Store, identifier: string, env: Environment, newId: string, now: Time): (e: Effect<Environment>)
    ensures ResolveProject(st, identifier).Err? ==> e == Effect(st, Err(ResolveProject(st, identifier).error))
    ensures ResolveProject(st, identifier).Ok? ==>
              e == SaveEdit(st, AddEnvironmentTo(ResolveProject(st, identifier).value, env, newId, now), Completed(env, newId, now))
  {
    SaveEdit(st, Edited(st, identifier, p => AddEnvironmentTo(p, env, newId, now)), Completed(env, newId, now))
  }

  /** `UpdateEnvironment`; the result is the edited environment. */
  function UpdateEnvironmentEffect(st: Store, identifier: string, envIdentifier: string, updates: map<string, Value>, now: Time): (e: Effect<Environment>)
    ensures ResolveProject(st, identifier).Err? ==> e == Effect(st, Err(ResolveProject(st, identifier).error))
    ensures ResolveProject(st, identifier).Ok? && UpdateEnvironmentIn(ResolveProject(st, identifier).value, envIdentifier, updates, now).Err? ==>
              e == Effect(st, Err(UpdateEnvironmentIn(ResolveProject(st, identifier).value, envIdentifier, updates, now).error))
    ensures ResolveProject(st, identifier).Ok? && UpdateEnvironmentIn(ResolveProject(st, identifier).value, envIdentifier, updates, now).Ok? ==>
              var edit := UpdateEnvironmentIn(ResolveProject(st, identifier).value, envIdentifier, updates, now).value;
              e == SaveEdit(st, Ok(edit.0), edit.1)
  {
    match ResolveProject(st, identifier)
    case Err(err) => Effect(st, Err(err))
    case Ok(p) =>
      match UpdateEnvironmentIn(p, envIdentifier, updates, now)
      case Err(err) => Effect(st, Err(err))
      case Ok(edit) => SaveEdit(st, Ok(edit.0), edit.1)
  }

  /** `RemoveEnvironment`. */
  function RemoveEnvironmentEffect(st: Store, identifier: string, envIdentifier: string, now: Time): (e: Effect<Unit>)
    ensures ResolveProject(st, identifier).Err? ==> e == Effect(st, Err(ResolveProject(st, identifier).error))
    ensures ResolveProject(st, identifier).Ok? ==>
              e == SaveEdit(st, RemoveEnvironmentFrom(ResolveProject(st, identifier).value, envIdentifier, now), Unit)
  {
    SaveEdit(st, Edited(st, identifier, p => RemoveEnvironmentFrom(p, envIdentifier, now)), Unit)
  }

  /** The environment edits keep the registry invariant. */
  lemma AddEnvironmentKeepsRegistry(st: Store, identifier: string, env: Environment, newId: string, now: Time)
    requires Registry(st)
    ensures Registry(AddEnvironmentEffect(st, identifier, env, newId, now).after)
  {
    if ResolveProject(st, identifier).Ok? {
      var p := ResolveProject(st, identifier).value;
      var edit := AddEnvironmentTo(p, env, newId, now);
      if edit.Ok? {
        ResolvedAtOwnName(st, identifier);
        DocNameIsJson(p.id);
        assert Listed(Entry(DocName(p.id), Parsed(p)));
        AddEnvironmentKeepsUnique(p, env, newId, now);
        SaveEditKeepsRegistry(st, identifier, edit.value);
      }
    }
  }

  lemma UpdateEnvironmentKeepsRegistry(st: Store, identifier: string, envIdentifier: string, updates: map<string, Value>, now: Time)
    requires Registry(st)
    ensures Registry(UpdateEnvironmentEffect(st, identifier, envIdentifier, updates, now).after)
  {
    if ResolveProject(st, identifier).Ok? {
      var p := ResolveProject(st, identifier).value;
      var edit := UpdateEnvironmentIn(p, envIdentifier, updates, now);
      if edit.Ok? {
        ResolvedAtOwnName(st, identifier);
        DocNameIsJson(p.id);
        assert Listed(Entry(DocName(p.id), Parsed(p)));
        UpdateEnvironmentKeepsUnique(p, envIdentifier, updates, now);
        SaveEditKeepsRegistry(st, identifier, edit.value.0);
      }
    }
  }

  lemma RemoveEnvironmentKeepsRegistry(st: Store, identifier: string, envIdentifier: string, now: Time)
    requires Registry(st)
    ensures Registry(RemoveEnvironmentEffect(st, identifier, envIdentifier, now).after)
  {
    if ResolveProject(st, identifier).Ok? {
      var p := ResolveProject(st, identifier).value;
      var edit := RemoveEnvironmentFrom(p, envIdentifier, now);
      if edit.Ok? {
        ResolvedAtOwnName(st, identifier);
        DocNameIsJson(p.id);
        assert Listed(Entry(DocName(p.id), Parsed(p)));
        RemoveEnvironmentKeepsUnique(p, envIdentifier, now);
        SaveEditKeepsRegistry(st, identifier, edit.value);
      }
    }
  }

  /** A created project starts with no environments, so the invariant needs only the name check. */
  lemma CreateKeepsRegistry(st: Store, name: string, description: string, newId: string, now: Time)
    requires Registry(st)
    ensures Registry(CreateProjectEffect(st, name, description, newId, now).after)
  {
    if CreateProjectEffect(st, name, description, newId, now).result.Ok? {
      CreateThenResolve(st, name, description, newId, now);
    }
  }

  /** The project manager: every operation loads, edits and saves through the store. */
  class Manager {
    const storage: Storage

    constructor(storage: Storage)
      ensures this.storage == storage
    {
      this.storage := storage;
    }

    method GetProject(identifier: string) returns (r: Result<Project>)
      ensures r == ResolveProject(storage.View(), identifier)
    {
      r := LoadProject(storage.View(), identifier);
      if r.Ok? {
        return;
      }
      r := storage.LoadProjectByName(identifier);
      if r.Err? {
        r := Err(ProjectNotFound(identifier));
      }
    }

    method ListProjects() returns (ps: seq<Project>)
      ensures ps == ListedProjects(storage.View())
    {
      ps := storage.ListProjects();
    }

    method CreateProject(name: string, description: string, newId: string, now: Time) returns (r: Result<Project>)
      requires storage.Valid()
      modifies storage
      ensures storage.Valid()
      ensures storage.View() == CreateProjectEffect(old(storage.View()), name, description, newId, now).after
      ensures r == CreateProjectEffect(old(storage.View()), name, description, newId, now).result
    {
      if name == "" {
        return Err(EmptyProjectName);
      }
      var existing := storage.LoadProjectByName(name);
      if existing.Ok? {
        return Err(ProjectNameTaken(name));
      }
      var p := Project(newId, name, description, now, now, []);
      var saved := storage.SaveProject(p);
      if saved.Err? {
        return Err(saved.error);
      }
      r := Ok(p);
    }

    method UpdateProject(identifier: string, updates: map<string, Value>, now: Time) returns (r: Result<Project>)
      requires storage.Valid()
      modifies storage
      ensures storage.Valid()
      ensures storage.View() == UpdateProjectEffect(old(storage.View()), identifier, updates, now).after
      ensures r == UpdateProjectEffect(old(storage.View()), identifier, updates, now).result
    {
      ghost var st0 := storage.View();
      var found := GetProject(identifier);
      if found.Err? {
        return found;
      }
      var project := found.value;
      if "name" in updates && updates["name"].Str? && updates["name"].s != "" {
        var newName := updates["name"].s;
        var existing := storage.LoadProjectByName(newName);
        if existing.Ok? && existing.value.id != project.id {
          return Err(ProjectNameTaken(newName));
        }
        project := project.(name := newName);
      }
      if "description" in updates && updates["description"].Str? {
        project := project.(description := updates["description"].s);
      }
      project := project.(updatedAt := now);
      assert !RenameConflict(st0, found.value, updates);
      assert project == ApplyProjectUpdates(found.value, updates, now);
      var saved := storage.SaveProject(project);
      if saved.Err? {
        return Err(saved.error);
      }
      r := Ok(project);
    }

    method DeleteProject(identifier: string) returns (r: Result<Unit>)
      requires storage.Valid()
      modifies storage
      ensures storage.Valid()
      ensures storage.View() == DeleteResolvedEffect(old(storage.View()), identifier).after
      ensures r == DeleteResolvedEffect(old(storage.View()), identifier).result
    {
      var found := GetProject(identifier);
      if found.Err? {
        return Err(found.error);
      }
      r := storage.DeleteProject(found.value.id);
    }

    method AddEnvironment(identifier: string, env: Environment, newId: string, now: Time) returns (r: Result<Environment>)
      requires storage.Valid()
      modifies storage
      ensures storage.Valid()
      ensures storage.View() == AddEnvironmentEffect(old(storage.View()), identifier, env, newId, now).after
      ensures r == AddEnvironmentEffect(old(storage.View()), identifier, env, newId, now).result
    {
      var found := GetProject(identifier);
      if found.Err? {
        return Err(found.error);
      }
      var project := found.value;
      var taken := ScanNames(project.environments, env.name, -1);
      if taken {
        return Err(EnvironmentNameTaken(env.name));
      }
      var added := env;
      if added.id == "" {
        added := added.(id := newId);
      }
      if added.createdAt == ZeroTime {
        added := added.(createdAt := now);
      }
      added := added.(updatedAt := now);
      project := project.(environments := project.environments + [added], updatedAt := now);
      var saved := storage.SaveProject(project);
      if saved.Err? {
        return Err(saved.error);
      }
      r := Ok(added);
    }

    method UpdateEnvironment(identifier: string, envIdentifier: string, updates: map<string, Value>, now: Time)
      returns (r: Result<Environment>)
      requires storage.Valid()
      modifies storage
      ensures storage.Valid()
      ensures storage.View() == UpdateEnvironmentEffect(old(storage.View()), identifier, envIdentifier, updates, now).after
      ensures r == UpdateEnvironmentEffect(old(storage.View()), identifier, envIdentifier, updates, now).result
    {
      var found := GetProject(identifier);
      if found.Err? {
        return Err(found.error);
      }
      var project := found.value;
      var index := FindEnvironment(project.environments, envIdentifier);
      if index == -1 {
        return Err(EnvironmentNotFound(envIdentifier));
      }
      if "name" in updates && updates["name"].Str? && updates["name"].s != "" {
        var newName := updates["name"].s;
        var taken := ScanNames(project.environments, newName, index);
        if taken {
          return Err(EnvironmentNameTaken(newName));
        }
      }
      var env := EditEnvironment(project.environments[index], updates, now);
      project := project.(environments := project.environments[index := env], updatedAt := now);
      var saved := storage.SaveProject(project);
      if saved.Err? {
        return Err(saved.error);
      }
      r := Ok(env);
    }

    method RemoveEnvironment(identifier: string, envIdentifier: string, now: Time) returns (r: Result<Unit>)
      requires storage.Valid()
      modifies storage
      ensures storage.Valid()
      ensures storage.View() == RemoveEnvironmentEffect(old(storage.View()), identifier, envIdentifier, now).after
      ensures r == RemoveEnvironmentEffect(old(storage.View()), identifier, envIdentifier, now).result
    {
      var found := GetProject(identifier);
      if found.Err? {
        return Err(found.error);
      }
      var project := found.value;
      var index := FindEnvironment(project.environments, envIdentifier);
      if index == -1 {
        return Err(EnvironmentNotFound(envIdentifier));
      }
      project := project.(environments := project.environments[..index] + project.environments[index + 1..], updatedAt := now);
      r := storage.SaveProject(project);
    }

    method GetEnvironment(identifier: string, envIdentifier: string) returns (r: Result<Environment>)
      ensures ResolveProject(storage.View(), identifier).Err? ==> r == Err(ResolveProject(storage.View(), identifier).error)
      ensures ResolveProject(storage.View(), identifier).Ok? ==> r == EnvironmentOf(ResolveProject(storage.View(), identifier).value, envIdentifier)
    {
      var found := GetProject(identifier);
      if found.Err? {
        return Err(found.error);
      }
      var index := FindEnvironment(found.value.environments, envIdentifier);
      if index == -1 {
        return Err(EnvironmentNotFound(envIdentifier));
      }
      r := Ok(found.value.environments[index]);
    }

    method ListEnvironments(identifier: string) returns (r: Result<seq<Environment>>)
      ensures ResolveProject(storage.View(), identifier).Err? ==> r == Err(ResolveProject(storage.View(), identifier).error)
      ensures ResolveProject(storage.View(), identifier).Ok? ==> r == Ok(ResolveProject(storage.View(), identifier).value.environments)
    {
      var found := GetProject(identifier);
      if found.Err? {
        return Err(found.error);
      }
      r := Ok(found.value.environments);
    }
  }
}
