/** The permission manager as concurrent callers see it. Each call is split where the code gives up
    exclusiveness: grants and revokes change the task list under the mutex, release it, and only then
    read and rewrite the package file; an install reads the old file and writes the new one; a load
    reads the file and adds its task while holding the mutex. Whole-file reads and writes are atomic.
    Any file access may fail. An action that is not enabled changes nothing. */
module Interleaving {
  import opened Common
  import opened PmsTypes
  import opened PmsModel
  import opened HalModel

  /** A call in progress, between two of its steps. */
  datatype Activity =
    | SyncPending(pkg: string, permName: string, change: Change)
    | SyncRead(pkg: string, permName: string, change: Change, list: seq<PermissionSaved>)
    | LoadHeld(pkg: string, uid: int, list: seq<PermissionSaved>)
    | SaveRead(pkg: string, list: seq<PermissionSaved>)

  /** What a failed write leaves behind: WriteString fails to open the file, removes it after a short
      write, or fails to remove it. */
  datatype Damage = Untouched | Removed | Garbled

  /** `holder` is the call holding the mutex; `failed` collects the packages on which a file update has
      failed since they were last loaded. */
  datatype System = System(
    tasks: seq<Task>, files: Files, calls: map<nat, Activity>, holder: Option<nat>, failed: set<string>)

  datatype Action =
    | BeginGrant(c: nat, identifier: string, permName: string, granted: Status)
    | BeginRuntime(c: nat, uid: int, permName: string, granted: Status)
    | BeginFlags(c: nat, identifier: string, permName: string, flags: int32)
    | ReadFile(c: nat)
    | WriteFile(c: nat)
    | FailFile(c: nat, damage: Damage)
    | BeginLoad(c: nat, identifier: string, uid: int)
    | FinishLoad(c: nat)
    | AbortLoad(c: nat)
    | DoUnLoad(uid: int)
    | BeginSave(c: nat, identifier: string, requests: seq<PermissionTrans>, isUpdate: int)
    | DoDelete(identifier: string)

  function Begun(s: System, c: nat, a: Activity): System { s.(calls := s.calls[c := a]) }

  function Ended(s: System, c: nat): System { s.(calls := s.calls - {c}) }

  /** The locked part of a grant on task k; a missing permission ends the call at once. */
  function GrantOnTask(s: System, c: nat, k: nat, permName: string, granted: Status): System
    requires k < |s.tasks|
  {
    if !Names(s.tasks[k], permName) then s
    else Begun(s.(tasks := Modified(s.tasks, k, permName, granted)), c,
               SyncPending(s.tasks[k].pkgName, permName, SetGranted(granted)))
  }

  function DoBeginGrant(s: System, c: nat, identifier: string, permName: string, granted: Status): System {
    if c in s.calls || s.holder.Some? then s
    else
      var k := IndexOfPkg(s.tasks, identifier);
      if k < |s.tasks| then GrantOnTask(s, c, k, permName, granted)
      else Begun(s, c, SyncPending(identifier, permName, SetGranted(granted)))
  }

  function DoBeginRuntime(s: System, c: nat, uid: int, permName: string, granted: Status): System {
    var k := IndexOfUid(s.tasks, uid);
    if c in s.calls || s.holder.Some? || k == |s.tasks| then s
    else GrantOnTask(s, c, k, permName, granted)
  }

  function DoBeginFlags(s: System, c: nat, identifier: string, permName: string, flags: int32): System {
    if c in s.calls || !IsValidFlags(flags) then s
    else Begun(s, c, SyncPending(identifier, permName, SetFlags(flags)))
  }

  /** The read of a sync: the call ends if the file cannot be read or already has the value. */
  function DoReadFile(config: Config, s: System, c: nat): System {
    if c !in s.calls || !s.calls[c].SyncPending? then s
    else
      var a := s.calls[c];
      match Query(config, s.files, a.pkg)
      case Failure(_) => Ended(s, c).(failed := s.failed + {a.pkg})
      case Success(ps) =>
        var qs := Changed(ps, a.permName, a.change);
        if qs == ps then Ended(s, c) else Begun(s, c, SyncRead(a.pkg, a.permName, a.change, qs))
  }

  /** The write of a sync or of an install. */
  function DoWriteFile(s: System, c: nat): System {
    if c !in s.calls || !(s.calls[c].SyncRead? || s.calls[c].SaveRead?) then s
    else Ended(s, c).(files := Written(s.files, s.calls[c].pkg, s.calls[c].list))
  }

  function Damaged(files: Files, identifier: string, damage: Damage): Files {
    match damage
    case Untouched => files
    case Removed => files - {identifier}
    case Garbled => files[identifier := Garbage]
  }

  /** A failed read (nothing touched) or a failed write. */
  function DoFailFile(s: System, c: nat, damage: Damage): System {
    if c !in s.calls || s.calls[c].LoadHeld? || (s.calls[c].SyncPending? && damage != Untouched) then s
    else
      var pkg := s.calls[c].pkg;
      Ended(s, c).(files := Damaged(s.files, pkg, damage), failed := s.failed + {pkg})
  }

  function DoBeginLoad(config: Config, s: System, c: nat, identifier: string, uid: int): System {
    if c in s.calls || s.holder.Some? || uid < 0 || IndexOfUid(s.tasks, uid) < |s.tasks| then s
    else match Query(config, s.files, identifier)
      case Failure(_) => s
      case Success(ps) =>
        if |identifier| >= PKG_NAME_LEN then s
        else Begun(s, c, LoadHeld(identifier, uid, ps)).(holder := Some(c))
  }

  function DoFinishLoad(s: System, c: nat): System {
    if c !in s.calls || !s.calls[c].LoadHeld? then s
    else
      var a := s.calls[c];
      Ended(s, c).(tasks := [Task(a.uid, a.pkg, a.list)] + s.tasks, holder := None, failed := s.failed - {a.pkg})
  }

  function DoAbortLoad(s: System, c: nat): System {
    if c !in s.calls || !s.calls[c].LoadHeld? then s else Ended(s, c).(holder := None)
  }

  function DoBeginSave(config: Config, s: System, c: nat, identifier: string, requests: seq<PermissionTrans>, isUpdate: int)
    : System
  {
    if c in s.calls then s
    else if IsRemoval(config, identifier, requests, isUpdate) then s.(files := s.files - {identifier})
    else match SaveList(config, s.files, identifier, requests, isUpdate)
      case Failure(_) => s
      case Success(ps) => Begun(s, c, SaveRead(identifier, ps))
  }

  function Next(config: Config, s: System, action: Action): System {
    match action
    case BeginGrant(c, identifier, permName, granted) => DoBeginGrant(s, c, identifier, permName, granted)
    case BeginRuntime(c, uid, permName, granted) => DoBeginRuntime(s, c, uid, permName, granted)
    case BeginFlags(c, identifier, permName, flags) => DoBeginFlags(s, c, identifier, permName, flags)
    case ReadFile(c) => DoReadFile(config, s, c)
    case WriteFile(c) => DoWriteFile(s, c)
    case FailFile(c, damage) => DoFailFile(s, c, damage)
    case BeginLoad(c, identifier, uid) => DoBeginLoad(config, s, c, identifier, uid)
    case FinishLoad(c) => DoFinishLoad(s, c)
    case AbortLoad(c) => DoAbortLoad(s, c)
    case DoUnLoad(uid) => if s.holder.Some? then s else s.(tasks := WithoutUid(s.tasks, uid))
    case BeginSave(c, identifier, requests, isUpdate) => DoBeginSave(config, s, c, identifier, requests, isUpdate)
    case DoDelete(identifier) => if PathFits(config, identifier) then s.(files := s.files - {identifier}) else s
  }

  function Execute(config: Config, s: System, actions: seq<Action>): System
    decreases |actions|
  {
    if actions == [] then s else Execute(config, Next(config, s, actions[0]), actions[1..])
  }

  function Start(files: Files): System { System([], files, map[], None, {}) }

  lemma OnlyGrantsAndLoadsChangeTasks(config: Config, s: System, action: Action)
    ensures action.BeginGrant? || action.BeginRuntime? || action.FinishLoad? || action.DoUnLoad?
            || Next(config, s, action).tasks == s.tasks
  {
    hide Query, Changed, Written, SaveList, IsValidFlags, IsRemoval, DoBeginGrant, DoBeginRuntime, DoFinishLoad, WithoutUid;
  }

  /** While a load holds the mutex no memory step of another call is taken. */
  lemma MutexExcludes(config: Config, s: System, action: Action)
    requires s.holder.Some?
    requires action.BeginGrant? || action.BeginRuntime? || action.BeginLoad? || action.DoUnLoad?
    ensures Next(config, s, action) == s
  {
    hide IndexOfPkg, IndexOfUid, WithoutUid, GrantOnTask, Query;
  }

  // ---- an uninterrupted call is the sequential one

  ghost predicate Quiet(s: System) { s.calls == map[] && s.holder.None? }

  lemma UninterruptedSync(config: Config, s: System, c: nat, pkg: string, permName: string, change: Change)
    requires s.calls == map[c := SyncPending(pkg, permName, change)] && s.holder.None?
    ensures
      var s' := DoWriteFile(DoReadFile(config, s, c), c);
      Quiet(s') && s'.tasks == s.tasks && s'.files == Synced(config, s.files, pkg, permName, change)
  {
    hide Query, Written, Changed;
  }

  lemma NothingToSync(config: Config, s: System, c: nat)
    requires c !in s.calls
    ensures DoWriteFile(DoReadFile(config, s, c), c) == s
  {
  }

  /** Run alone, the three steps of a grant do to tasks and files what the sequential call does. */
  lemma UninterruptedGrant(config: Config, s: System, c: nat, identifier: string, permName: string, g: Status)
    requires Quiet(s)
    ensures
      var s' := DoWriteFile(DoReadFile(config, DoBeginGrant(s, c, identifier, permName, g), c), c);
      Quiet(s') && State(s'.tasks, s'.files) == GrantStep(config, State(s.tasks, s.files), identifier, permName, g).state
  {
    hide Query, Written, Changed, DoReadFile, DoWriteFile;
    var s1 := DoBeginGrant(s, c, identifier, permName, g);
    if s1 != s {
      UninterruptedSync(config, s1, c, identifier, permName, SetGranted(g));
    } else {
      NothingToSync(config, s, c);
    }
  }

  /** ... and so do the steps of a runtime grant, a flags update, a load and an install. */
  lemma UninterruptedRuntimeGrant(config: Config, s: System, c: nat, uid: int, permName: string, g: Status)
    requires Quiet(s)
    ensures
      var s' := DoWriteFile(DoReadFile(config, DoBeginRuntime(s, c, uid, permName, g), c), c);
      Quiet(s') && State(s'.tasks, s'.files) == GrantRuntimeStep(config, State(s.tasks, s.files), uid, permName, g).state
  {
    hide Query, Written, Changed, DoReadFile, DoWriteFile;
    var s1 := DoBeginRuntime(s, c, uid, permName, g);
    if s1 != s {
      UninterruptedSync(config, s1, c, s.tasks[IndexOfUid(s.tasks, uid)].pkgName, permName, SetGranted(g));
    } else {
      NothingToSync(config, s, c);
    }
  }

  lemma UninterruptedFlagsUpdate(config: Config, s: System, c: nat, identifier: string, permName: string, flags: int32)
    requires Quiet(s)
    ensures
      var s' := DoWriteFile(DoReadFile(config, DoBeginFlags(s, c, identifier, permName, flags), c), c);
      Quiet(s') && State(s'.tasks, s'.files) == Step(config, State(s.tasks, s.files), UpdateFlags(identifier, permName, flags)).state
  {
    hide Query, Written, Changed, DoReadFile, DoWriteFile;
    var s1 := DoBeginFlags(s, c, identifier, permName, flags);
    if s1 != s {
      UninterruptedSync(config, s1, c, identifier, permName, SetFlags(flags));
    } else {
      NothingToSync(config, s, c);
    }
  }

  lemma UninterruptedLoad(config: Config, s: System, c: nat, identifier: string, uid: int)
    requires Quiet(s)
    ensures
      var s' := DoFinishLoad(DoBeginLoad(config, s, c, identifier, uid), c);
      Quiet(s') && State(s'.tasks, s'.files) == LoadStep(config, State(s.tasks, s.files), identifier, uid).state
  {
    hide Query;
  }

  /** A load that fails after its read leaves everything as it was. */
  lemma AbortedLoad(config: Config, s: System, c: nat, identifier: string, uid: int)
    requires Quiet(s)
    ensures DoAbortLoad(DoBeginLoad(config, s, c, identifier, uid), c) == s
  {
    hide Query, IndexOfUid;
  }

  lemma UninterruptedSave(config: Config, s: System, c: nat, identifier: string, requests: seq<PermissionTrans>, isUpdate: int)
    requires Quiet(s)
    ensures
      var s' := DoWriteFile(DoBeginSave(config, s, c, identifier, requests, isUpdate), c);
      Quiet(s') && State(s'.tasks, s'.files) == SaveStep(config, State(s.tasks, s.files), identifier, requests, isUpdate).state
  {
    hide SaveList, Written;
  }

  /** Unloads and deletes are single steps. */
  lemma UninterruptedUnLoad(config: Config, s: System, uid: int)
    requires Quiet(s)
    ensures
      var s' := Next(config, s, DoUnLoad(uid));
      Quiet(s') && State(s'.tasks, s'.files) == Step(config, State(s.tasks, s.files), UnLoad(uid)).state
  {
    hide WithoutUid;
  }

  lemma UninterruptedDelete(config: Config, s: System, identifier: string)
    requires Quiet(s)
    ensures
      var s' := Next(config, s, DoDelete(identifier));
      Quiet(s') && State(s'.tasks, s'.files) == Step(config, State(s.tasks, s.files), Delete(identifier)).state
  {
  }

  /** A failing file access leaves here exactly what it may leave in the service as it is written. */
  lemma FailuresAreTheServices(files: Files, files': Files, identifier: string)
    ensures Spoiled(files, files', identifier) <==> exists damage :: files' == Damaged(files, identifier, damage)
  {
    assert Damaged(files, identifier, Untouched) == files;
    assert Damaged(files, identifier, Removed) == files - {identifier};
    assert Damaged(files, identifier, Garbled) == files[identifier := Garbage];
  }
}
