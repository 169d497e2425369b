/** Coherence of one package's task and file in every state any interleaving can reach, when calls on
    that package do not overlap, it runs under one uid at a time, and it is not installed, upgraded or
    deleted while it runs. Calls on other packages are free, and file accesses may fail at any point. */
module InterleavedCoherence {
  import opened Common
  import opened PmsTypes
  import opened PermissionCodec
  import opened PmsModel
  import opened FileSync
  import opened PackageTasks
  import opened Coherence
  import opened Interleaving

  // ---- the system seen from one package

  /** The package's tasks, what its file reads as, the calls busy with it, and whether a file update of
      it has failed since it was last loaded. */
  datatype View = View(tasks: seq<Task>, file: Result<seq<PermissionSaved>>, calls: map<nat, Activity>, failed: bool)

  function CallsOn(calls: map<nat, Activity>, pkg: string): map<nat, Activity> {
    map c | c in calls && calls[c].pkg == pkg :: calls[c]
  }

  function ViewOf(config: Config, s: System, pkg: string): View {
    View(TasksOf(s.tasks, pkg), Query(config, s.files, pkg), CallsOn(s.calls, pkg), pkg in s.failed)
  }

  predicate Idle(s: System, pkg: string) { CallsOn(s.calls, pkg) == map[] }

  predicate IsSync(a: Activity) { a.SyncPending? || a.SyncRead? }

  /** The task differs from what the file reads as by that one change, which it already has. */
  ghost predicate AheadBy(file: Result<seq<PermissionSaved>>, t: Task, permName: string, change: Change) {
    file.Success? && SameGrants(Changed(file.value, permName, change), t.perms)
  }

  /** A task matches its file, or is ahead of it by the pending sync of the one call busy with the package. */
  ghost predicate TaskOk(v: View, t: Task) {
    && (v.calls == map[] ==> v.file.Success? && SameGrants(v.file.value, t.perms))
    && forall c :: c in v.calls ==> IsSync(v.calls[c]) && AheadBy(v.file, t, v.calls[c].permName, v.calls[c].change)
  }

  /** What a call in progress relies on between its steps. */
  ghost predicate CallOk(v: View, a: Activity) {
    match a
    case SyncPending(_, _, _) => true
    case SyncRead(_, permName, change, list) => v.file.Success? && list == Changed(v.file.value, permName, change)
    case LoadHeld(_, _, list) => v.tasks == [] && v.file == Success(list)
    case SaveRead(_, _) => v.tasks == []
  }

  ghost predicate ViewOk(v: View) {
    && |v.tasks| <= 1
    && (v.file.Success? ==> AllStorable(v.file.value))
    && (forall c, d :: c in v.calls && d in v.calls ==> c == d)
    && (forall t :: t in v.tasks ==> WellFormedTask(t) && (!v.failed ==> TaskOk(v, t)))
    && forall c :: c in v.calls ==> CallOk(v, v.calls[c])
  }

  /** What the mutex gives, with no discipline of the callers: a load in progress is the only one, and its
      uid stays free. */
  ghost predicate LockInv(s: System) {
    && OneTaskPerUid(s.tasks)
    && forall c :: c in s.calls && s.calls[c].LoadHeld? ==>
         && s.holder == Some(c) && s.calls[c].uid >= 0 && |s.calls[c].pkg| < PKG_NAME_LEN
         && IndexOfUid(s.tasks, s.calls[c].uid) == |s.tasks|
  }

  ghost predicate PkgInv(config: Config, s: System, pkg: string) {
    LockInv(s) && ViewOk(ViewOf(config, s, pkg))
  }

  /** The discipline of the callers towards one package: what an action may start on. */
  ghost predicate DisciplinedFor(s: System, action: Action, pkg: string) {
    match action
    case BeginGrant(_, identifier, _, _) => identifier == pkg ==> Idle(s, pkg)
    case BeginFlags(_, identifier, _, _) => identifier == pkg ==> Idle(s, pkg)
    case BeginRuntime(_, uid, _, _) =>
      var k := IndexOfUid(s.tasks, uid);
      k < |s.tasks| && s.tasks[k].pkgName == pkg ==> Idle(s, pkg)
    case DoUnLoad(uid) =>
      var k := IndexOfUid(s.tasks, uid);
      k < |s.tasks| && s.tasks[k].pkgName == pkg ==> Idle(s, pkg)
    case BeginLoad(_, identifier, uid) =>
      identifier == pkg ==> Idle(s, pkg) && (IndexOfUid(s.tasks, uid) == |s.tasks| ==> TasksOf(s.tasks, pkg) == [])
    case BeginSave(_, identifier, _, _) => identifier == pkg ==> Idle(s, pkg) && TasksOf(s.tasks, pkg) == []
    case DoDelete(identifier) => identifier == pkg ==> Idle(s, pkg) && TasksOf(s.tasks, pkg) == []
    case _ => true
  }

  ghost predicate DisciplinedRunFor(config: Config, s: System, actions: seq<Action>, pkg: string)
    decreases |actions|
  {
    actions == [] || (DisciplinedFor(s, actions[0], pkg) && DisciplinedRunFor(config, Next(config, s, actions[0]), actions[1..], pkg))
  }

  lemma CallsOnBegun(calls: map<nat, Activity>, c: nat, a: Activity, pkg: string)
    requires c !in calls || calls[c].pkg == a.pkg
    ensures CallsOn(calls[c := a], pkg) == if a.pkg == pkg then CallsOn(calls, pkg)[c := a] else CallsOn(calls, pkg)
  {
  }

  lemma CallsOnEnded(calls: map<nat, Activity>, c: nat, pkg: string)
    ensures CallsOn(calls - {c}, pkg) == CallsOn(calls, pkg) - {c}
  {
  }

  /** The one call busy with the package is all its view shows. */
  lemma OnlyCall(v: View, c: nat)
    requires ViewOk(v) && c in v.calls
    ensures v.calls == map[c := v.calls[c]] && v.calls - {c} == map[]
  {
  }

  // ---- what each action does to the view

  lemma GrantOnTaskKeepsView(config: Config, s: System, c: nat, k: nat, permName: string, g: Status, pkg: string)
    requires ViewOk(ViewOf(config, s, pkg)) && c !in s.calls && k < |s.tasks|
    requires s.tasks[k].pkgName == pkg ==> Idle(s, pkg)
    ensures ViewOk(ViewOf(config, GrantOnTask(s, c, k, permName, g), pkg))
  {
    hide Query, TasksOf, CallsOn, Changed, SameGrants, AllStorable, Names;
    var t, s' := s.tasks[k], GrantOnTask(s, c, k, permName, g);
    if s' != s {
      TasksOfUpdate(s.tasks, k, s'.tasks[k], pkg);
      CallsOnBegun(s.calls, c, s'.calls[c], pkg);
      if t.pkgName == pkg {
        var v, v' := ViewOf(config, s, pkg), ViewOf(config, s', pkg);
        assert t in v.tasks && v.tasks == [t] && v' == View([s'.tasks[k]], v.file, map[c := s'.calls[c]], v.failed);
        if !v.failed {
          assert TaskOk(v, t);
          GrantKeepsSameGrants(v.file.value, t.perms, permName, g);
          assert AheadBy(v'.file, s'.tasks[k], permName, SetGranted(g));
          assert v'.calls[c] == SyncPending(pkg, permName, SetGranted(g));
          assert TaskOk(v', s'.tasks[k]);
        }
      }
    }
  }

  lemma BeginGrantKeepsView(config: Config, s: System, c: nat, identifier: string, permName: string, g: Status, pkg: string)
    requires ViewOk(ViewOf(config, s, pkg)) && (identifier == pkg ==> Idle(s, pkg))
    ensures ViewOk(ViewOf(config, DoBeginGrant(s, c, identifier, permName, g), pkg))
  {
    hide Query, TasksOf, CallsOn, IndexOfPkg, AllStorable, GrantOnTask;
    var k, s' := IndexOfPkg(s.tasks, identifier), DoBeginGrant(s, c, identifier, permName, g);
    if s' != s {
      if k < |s.tasks| {
        GrantOnTaskKeepsView(config, s, c, k, permName, g, pkg);
      } else {
        TasksOfLookup(s.tasks, identifier);
        CallsOnBegun(s.calls, c, s'.calls[c], pkg);
      }
    }
  }

  lemma BeginFlagsKeepsView(config: Config, s: System, c: nat, identifier: string, permName: string, flags: int32, pkg: string)
    requires ViewOk(ViewOf(config, s, pkg)) && (identifier == pkg ==> Idle(s, pkg))
    ensures ViewOk(ViewOf(config, DoBeginFlags(s, c, identifier, permName, flags), pkg))
  {
    hide Query, TasksOf, CallsOn, Changed, SameGrants, AllStorable, IsValidFlags;
    var s' := DoBeginFlags(s, c, identifier, permName, flags);
    if s' != s {
      var v := ViewOf(config, s, pkg);
      CallsOnBegun(s.calls, c, s'.calls[c], pkg);
      forall t | identifier == pkg && t in v.tasks && !v.failed ensures AheadBy(v.file, t, permName, SetFlags(flags)) {
        FlagsKeepSameGrants(v.file.value, t.perms, permName, flags);
      }
    }
  }

  lemma ReadFileKeepsView(config: Config, s: System, c: nat, pkg: string)
    requires ViewOk(ViewOf(config, s, pkg))
    ensures ViewOk(ViewOf(config, DoReadFile(config, s, c), pkg))
  {
    hide Query, TasksOf, CallsOn, Changed, ViewOk;
    var v, s' := ViewOf(config, s, pkg), DoReadFile(config, s, c);
    if s' != s {
      CallsOnMembers(s.calls, pkg);
      CallsOnEnded(s.calls, c, pkg);
      if c in s'.calls {
        CallsOnBegun(s.calls, c, s'.calls[c], pkg);
      }
      if c in v.calls {
        ReadKeepsView(v, c);
      } else {
        assert ViewOf(config, s', pkg) == v;
      }
    }
  }

  lemma CallsOnMembers(calls: map<nat, Activity>, pkg: string)
    ensures forall c :: c in CallsOn(calls, pkg) <==> c in calls && calls[c].pkg == pkg
    ensures forall c :: c in CallsOn(calls, pkg) ==> CallsOn(calls, pkg)[c] == calls[c]
  {
  }

  /** The read of the one call busy with the package: it fails, or finds nothing to write, or holds a list. */
  lemma ReadKeepsView(v: View, c: nat)
    requires ViewOk(v) && c in v.calls && v.calls[c].SyncPending?
    ensures
      var a := v.calls[c];
      match v.file
      case Failure(_) => ViewOk(v.(calls := v.calls - {c}, failed := true))
      case Success(ps) =>
        var qs := Changed(ps, a.permName, a.change);
        ViewOk(v.(calls := if qs == ps then v.calls - {c} else v.calls[c := SyncRead(a.pkg, a.permName, a.change, qs)]))
  {
    hide Changed, SameGrants, AllStorable;
    OnlyCall(v, c);
  }

  lemma WriteFileKeepsView(config: Config, s: System, c: nat, pkg: string)
    requires ViewOk(ViewOf(config, s, pkg))
    ensures ViewOk(ViewOf(config, DoWriteFile(s, c), pkg))
  {
    hide Query, TasksOf, Changed, SameGrants, AllStorable, Encode;
    var v, s' := ViewOf(config, s, pkg), DoWriteFile(s, c);
    if s' != s {
      var a := s.calls[c];
      CallsOnEnded(s.calls, c, pkg);
      if c in v.calls {
        hide CallsOn;
        OnlyCall(v, c);
        WrittenIsStorable(config, s.files, pkg, a.list);
        if a.SyncRead? {
          ChangeKeepsStorable(v.file.value, a.permName, a.change);
          ReadAfterWrite(config, s.files, pkg, a.list);
        }
      } else {
        SameFileSameQuery(config, s.files, s'.files, a.pkg, pkg);
      }
    }
  }

  lemma FailFileKeepsView(config: Config, s: System, c: nat, damage: Damage, pkg: string)
    requires ViewOk(ViewOf(config, s, pkg))
    ensures ViewOk(ViewOf(config, DoFailFile(s, c, damage), pkg))
  {
    hide Query, TasksOf, Changed, SameGrants, AllStorable;
    var v, s' := ViewOf(config, s, pkg), DoFailFile(s, c, damage);
    if s' != s {
      CallsOnEnded(s.calls, c, pkg);
      if c in v.calls {
        hide CallsOn;
        OnlyCall(v, c);
        DamagedIsStorable(config, s.files, pkg, damage);
      } else {
        SameFileSameQuery(config, s.files, s'.files, s.calls[c].pkg, pkg);
      }
    }
  }

  lemma DamagedIsStorable(config: Config, files: Files, pkg: string, damage: Damage)
    requires StorableAt(config, files, pkg)
    ensures StorableAt(config, Damaged(files, pkg, damage), pkg)
  {
    hide Decode;
  }

  lemma BeginLoadKeepsView(config: Config, s: System, c: nat, identifier: string, uid: int, pkg: string)
    requires ViewOk(ViewOf(config, s, pkg)) && DisciplinedFor(s, BeginLoad(c, identifier, uid), pkg)
    ensures ViewOk(ViewOf(config, DoBeginLoad(config, s, c, identifier, uid), pkg))
  {
    hide Query, TasksOf, CallsOn, AllStorable, IndexOfUid;
    var s' := DoBeginLoad(config, s, c, identifier, uid);
    if s' != s {
      CallsOnBegun(s.calls, c, s'.calls[c], pkg);
    }
  }

  /** The end of a load, with the task added or not. */
  lemma EndLoadKeepsView(config: Config, s: System, c: nat, pkg: string)
    requires LockInv(s) && ViewOk(ViewOf(config, s, pkg))
    ensures ViewOk(ViewOf(config, DoFinishLoad(s, c), pkg)) && ViewOk(ViewOf(config, DoAbortLoad(s, c), pkg))
  {
    hide Query, TasksOf, CallsOn, Changed, AllStorable, IndexOfUid, OneTaskPerUid;
    var v := ViewOf(config, s, pkg);
    if c in s.calls && s.calls[c].LoadHeld? {
      var a := s.calls[c];
      CallsOnMembers(s.calls, pkg);
      CallsOnEnded(s.calls, c, pkg);
      TasksOfNew(Task(a.uid, a.pkg, a.list), s.tasks, pkg);
      if c in v.calls {
        OnlyCall(v, c);
        assert CallOk(v, a);
      } else {
        assert ViewOf(config, DoFinishLoad(s, c), pkg) == v && ViewOf(config, DoAbortLoad(s, c), pkg) == v;
      }
    }
  }

  lemma UnLoadKeepsView(config: Config, s: System, uid: int, pkg: string)
    requires ViewOk(ViewOf(config, s, pkg)) && DisciplinedFor(s, DoUnLoad(uid), pkg)
    ensures ViewOk(ViewOf(config, s.(tasks := WithoutUid(s.tasks, uid)), pkg))
  {
    hide Query, TasksOf, CallsOn, AllStorable, IndexOfUid, WithoutUid;
    TasksOfWithout(s.tasks, uid, pkg);
  }

  lemma DeleteKeepsView(config: Config, s: System, identifier: string, pkg: string)
    requires ViewOk(ViewOf(config, s, pkg)) && DisciplinedFor(s, DoDelete(identifier), pkg)
    ensures ViewOk(ViewOf(config, s.(files := s.files - {identifier}), pkg))
  {
    hide Query, TasksOf, CallsOn, AllStorable;
    if identifier == pkg {
      MissingIsStorable(config, s.files, pkg);
    } else {
      SameFileSameQuery(config, s.files, s.files - {identifier}, identifier, pkg);
    }
  }

  lemma BeginSaveKeepsView(config: Config, s: System, c: nat, identifier: string, requests: seq<PermissionTrans>, isUpdate: int, pkg: string)
    requires ViewOk(ViewOf(config, s, pkg)) && DisciplinedFor(s, BeginSave(c, identifier, requests, isUpdate), pkg)
    ensures ViewOk(ViewOf(config, DoBeginSave(config, s, c, identifier, requests, isUpdate), pkg))
  {
    hide Query, TasksOf, CallsOn, AllStorable, SaveList;
    var s' := DoBeginSave(config, s, c, identifier, requests, isUpdate);
    DeleteKeepsView(config, s, identifier, pkg);
    if s'.calls != s.calls {
      CallsOnBegun(s.calls, c, s'.calls[c], pkg);
    }
  }

  /** Every step of every call, failures included, keeps the package's invariant. */
  lemma NextKeepsView(config: Config, s: System, action: Action, pkg: string)
    requires LockInv(s) && ViewOk(ViewOf(config, s, pkg)) && DisciplinedFor(s, action, pkg)
    ensures ViewOk(ViewOf(config, Next(config, s, action), pkg))
  {
    hide ViewOk, ViewOf, LockInv, DoBeginGrant, DoBeginFlags, DoReadFile, DoWriteFile, DoFailFile, DoBeginLoad, DoFinishLoad, DoAbortLoad,
      DoBeginSave, GrantOnTask;
    match action
    case BeginGrant(c, identifier, permName, g) => BeginGrantKeepsView(config, s, c, identifier, permName, g, pkg);
    case BeginRuntime(c, uid, permName, g) =>
      var k := IndexOfUid(s.tasks, uid);
      if c !in s.calls && k < |s.tasks| {
        GrantOnTaskKeepsView(config, s, c, k, permName, g, pkg);
      }
    case BeginFlags(c, identifier, permName, flags) => BeginFlagsKeepsView(config, s, c, identifier, permName, flags, pkg);
    case ReadFile(c) => ReadFileKeepsView(config, s, c, pkg);
    case WriteFile(c) => WriteFileKeepsView(config, s, c, pkg);
    case FailFile(c, damage) => FailFileKeepsView(config, s, c, damage, pkg);
    case DoUnLoad(uid) => UnLoadKeepsView(config, s, uid, pkg);
    case BeginSave(c, identifier, requests, isUpdate) =>
      BeginSaveKeepsView(config, s, c, identifier, requests, isUpdate, pkg);
    case DoDelete(identifier) => DeleteKeepsView(config, s, identifier, pkg);
    case BeginLoad(c, identifier, uid) => BeginLoadKeepsView(config, s, c, identifier, uid, pkg);
    case FinishLoad(c) => EndLoadKeepsView(config, s, c, pkg);
    case AbortLoad(c) => EndLoadKeepsView(config, s, c, pkg);
  }

  // ---- the mutex

  lemma ModifiedKeepsUids(tasks: seq<Task>, tasks': seq<Task>)
    requires OneTaskPerUid(tasks) && |tasks'| == |tasks| && forall i :: 0 <= i < |tasks| ==> tasks'[i].uid == tasks[i].uid
    ensures OneTaskPerUid(tasks')
    ensures forall u :: IndexOfUid(tasks, u) == |tasks| ==> IndexOfUid(tasks', u) == |tasks'|
  {
    hide IndexOfUid;
    forall u | IndexOfUid(tasks, u) == |tasks| ensures IndexOfUid(tasks', u) == |tasks'| {
      var i := IndexOfUid(tasks', u);
    }
  }

  lemma BeginKeepsLock(config: Config, s: System, action: Action)
    requires LockInv(s) && (action.BeginGrant? || action.BeginRuntime?)
    ensures LockInv(Next(config, s, action))
  {
    hide Changed, Names, IndexOfPkg, IndexOfUid, OneTaskPerUid;
    ModifiedKeepsUids(s.tasks, Next(config, s, action).tasks);
  }

  lemma LoadKeepsLock(config: Config, s: System, action: Action)
    requires LockInv(s) && (action.BeginLoad? || action.FinishLoad? || action.AbortLoad?)
    ensures LockInv(Next(config, s, action))
  {
    hide Query, IndexOfUid;
  }

  lemma FileStepKeepsLock(config: Config, s: System, action: Action)
    requires LockInv(s) && (action.ReadFile? || action.WriteFile? || action.FailFile?)
    ensures LockInv(Next(config, s, action))
  {
    hide Query, Changed, Written, IndexOfUid, OneTaskPerUid;
  }

  /** No step of any interleaving, disciplined or not, breaks what the mutex gives. */
  lemma NextKeepsLock(config: Config, s: System, action: Action)
    requires LockInv(s)
    ensures LockInv(Next(config, s, action))
  {
    match action
    case BeginGrant(_, _, _, _) => BeginKeepsLock(config, s, action);
    case BeginRuntime(_, _, _, _) => BeginKeepsLock(config, s, action);
    case BeginLoad(_, _, _) => LoadKeepsLock(config, s, action);
    case FinishLoad(_) => LoadKeepsLock(config, s, action);
    case AbortLoad(_) => LoadKeepsLock(config, s, action);
    case ReadFile(_) => FileStepKeepsLock(config, s, action);
    case WriteFile(_) => FileStepKeepsLock(config, s, action);
    case FailFile(_, _) => FileStepKeepsLock(config, s, action);
    case DoUnLoad(uid) =>
      hide IndexOfUid, WithoutUid;
      RemovalKeepsUnique(s.tasks, uid);
    case _ => hide IndexOfUid, OneTaskPerUid, SaveList, IsValidFlags;
  }

  /** In every state of every interleaving no uid has two tasks. */
  lemma {:induction false} EveryInterleavingKeepsUidsUnique(config: Config, s: System, actions: seq<Action>)
    requires LockInv(s)
    ensures LockInv(Execute(config, s, actions)) && OneTaskPerUid(Execute(config, s, actions).tasks)
    decreases |actions|
  {
    hide Next, OneTaskPerUid, IndexOfUid;
    if actions == [] {
    } else {
      NextKeepsLock(config, s, actions[0]);
      EveryInterleavingKeepsUidsUnique(config, Next(config, s, actions[0]), actions[1..]);
    }
  }

  // ---- reachable states

  lemma NextKeepsPkgInv(config: Config, s: System, action: Action, pkg: string)
    requires PkgInv(config, s, pkg) && DisciplinedFor(s, action, pkg)
    ensures PkgInv(config, Next(config, s, action), pkg)
  {
    hide LockInv, ViewOk, Next;
    NextKeepsLock(config, s, action);
    NextKeepsView(config, s, action, pkg);
  }

  lemma {:induction false} RunKeepsPkgInv(config: Config, s: System, actions: seq<Action>, pkg: string)
    requires PkgInv(config, s, pkg) && DisciplinedRunFor(config, s, actions, pkg)
    ensures PkgInv(config, Execute(config, s, actions), pkg)
    decreases |actions|
  {
    hide PkgInv, DisciplinedFor, Next;
    if actions == [] {
    } else {
      NextKeepsPkgInv(config, s, actions[0], pkg);
      RunKeepsPkgInv(config, Next(config, s, actions[0]), actions[1..], pkg);
    }
  }

  /** The task matches its file and no call is busy with the package; or exactly one is, a sync, and the
      task is ahead of the file by its change. */
  ghost predicate MatchesOrAwaits(config: Config, s: System, t: Task) {
    || (Idle(s, t.pkgName) && Matches(config, s.files, t))
    || exists c :: c in s.calls && CallsOn(s.calls, t.pkgName) == map[c := s.calls[c]] && IsSync(s.calls[c])
                   && AheadBy(Query(config, s.files, t.pkgName), t, s.calls[c].permName, s.calls[c].change)
  }

  lemma TaskMatchesOrAwaits(config: Config, s: System, t: Task)
    requires PkgInv(config, s, t.pkgName) && t in s.tasks && t.pkgName !in s.failed
    ensures MatchesOrAwaits(config, s, t)
  {
    hide Query, TasksOf, AheadBy, SameGrants, AllStorable, LockInv;
    var v := ViewOf(config, s, t.pkgName);
    TasksOfMembers(s.tasks, t.pkgName);
    assert TaskOk(v, t);
    if v.calls != map[] {
      var c :| c in v.calls;
      OnlyCall(v, c);
      assert c in s.calls && v.calls[c] == s.calls[c];
    }
  }

  /** From the service's start: whatever runs concurrently and whatever fails, a package towards which the
      callers keep the discipline has at most one task, and unless a file update of it has failed that
      task matches its file or awaits exactly the one pending sync of the package. The other packages may
      hold anything and be called in any way. */
  lemma InterleavedCoherence(config: Config, files: Files, actions: seq<Action>, pkg: string)
    requires StorableAt(config, files, pkg) && DisciplinedRunFor(config, Start(files), actions, pkg)
    ensures
      var s := Execute(config, Start(files), actions);
      && |TasksOf(s.tasks, pkg)| <= 1
      && (pkg !in s.failed ==> forall t :: t in TasksOf(s.tasks, pkg) ==> MatchesOrAwaits(config, s, t))
  {
    hide Query, Execute, DisciplinedRunFor, MatchesOrAwaits, TasksOf, AllStorable;
    StartIsOk(config, files, pkg);
    RunKeepsPkgInv(config, Start(files), actions, pkg);
    var s := Execute(config, Start(files), actions);
    TasksOfMembers(s.tasks, pkg);
    forall t | pkg !in s.failed && t in TasksOf(s.tasks, pkg) ensures MatchesOrAwaits(config, s, t) {
      TaskMatchesOrAwaits(config, s, t);
    }
  }

  lemma StartIsOk(config: Config, files: Files, pkg: string)
    requires StorableAt(config, files, pkg)
    ensures PkgInv(config, Start(files), pkg)
  {
    hide Query, AllStorable;
  }

  // ---- what a check answers, and how a sync ends

  /** What a check answers meanwhile: the task's own value, which runs ahead of the file by the pending
      change of the one call that is syncing the package. */
  lemma AnswersRunAhead(config: Config, s: System, k: nat, permName: string)
    requires k < |s.tasks| && PkgInv(config, s, s.tasks[k].pkgName) && s.tasks[k].pkgName !in s.failed
    ensures
      var t := s.tasks[k];
      var answer := GrantedIn(s.tasks, t.uid, permName);
      var q := Query(config, s.files, t.pkgName);
      && (Idle(s, t.pkgName) ==> q.Success? && answer == GrantedOf(q.value, permName))
      && forall c :: c in s.calls && s.calls[c].pkg == t.pkgName ==>
           && IsSync(s.calls[c]) && q.Success?
           && answer == GrantedOf(Changed(q.value, s.calls[c].permName, s.calls[c].change), permName)
  {
    hide Query, TasksOf, Changed, IndexOfUid, IndexOfName, AllStorable, SameGrants;
    var t := s.tasks[k];
    var v := ViewOf(config, s, t.pkgName);
    assert IndexOfUid(s.tasks, t.uid) == k;
    TasksOfMembers(s.tasks, t.pkgName);
    assert TaskOk(v, t);
    if v.calls == map[] {
      SameGrantsAnswer(v.file.value, t.perms, permName);
    }
    forall c | c in s.calls && s.calls[c].pkg == t.pkgName
      ensures IsSync(s.calls[c]) && v.file.Success?
      ensures GrantedOf(t.perms, permName) == GrantedOf(Changed(v.file.value, s.calls[c].permName, s.calls[c].change), permName)
    {
      assert c in v.calls;
      SameGrantsAnswer(Changed(v.file.value, s.calls[c].permName, s.calls[c].change), t.perms, permName);
    }
  }

  /** Call c is syncing the file of a loaded package whose updates have not failed. */
  ghost predicate Syncing(config: Config, s: System, c: nat, pkg: string) {
    PkgInv(config, s, pkg) && c in s.calls && IsSync(s.calls[c]) && s.calls[c].pkg == pkg
    && pkg !in s.failed && TasksOf(s.tasks, pkg) != []
  }

  /** Every task of the package matches its file. */
  ghost predicate InStep(config: Config, s: System, pkg: string) {
    forall t :: t in s.tasks && t.pkgName == pkg ==> Matches(config, s.files, t)
  }

  /** A sync ends with its package's task matching the file: at its read when there is nothing to write,
      otherwise at its write. A read without an I/O fault cannot fail. */
  lemma SyncRestoresMatch(config: Config, s: System, c: nat, pkg: string)
    requires Syncing(config, s, c, pkg)
    ensures
      var s' := DoReadFile(config, s, c);
      s'.tasks == s.tasks && if c in s'.calls then Syncing(config, s', c, pkg) && s'.calls[c].SyncRead? else InStep(config, s', pkg)
    ensures
      var s' := DoWriteFile(s, c);
      s.calls[c].SyncRead? ==> s'.tasks == s.tasks && c !in s'.calls && InStep(config, s', pkg)
  {
    hide Query, TasksOf, Encode, AllStorable, SameGrants, Changed, InStep, LockInv;
    var v, s1, s2 := ViewOf(config, s, pkg), DoReadFile(config, s, c), DoWriteFile(s, c);
    assert v.tasks[0] in v.tasks && TaskOk(v, v.tasks[0]) && c in v.calls;
    OnlyCall(v, c);
    FileStepKeepsLock(config, s, ReadFile(c));
    FileStepKeepsLock(config, s, WriteFile(c));
    ReadFileKeepsView(config, s, c, pkg);
    WriteFileKeepsView(config, s, c, pkg);
    CallsOnEnded(s.calls, c, pkg);
    if c !in s1.calls {
      EndedIsInStep(config, s1, pkg);
    }
    if s.calls[c].SyncRead? {
      EndedIsInStep(config, s2, pkg);
    }
  }

  lemma EndedIsInStep(config: Config, s: System, pkg: string)
    requires PkgInv(config, s, pkg) && Idle(s, pkg) && pkg !in s.failed
    ensures InStep(config, s, pkg)
  {
    hide Query, TasksOf, SameGrants, AllStorable;
    TasksOfMembers(s.tasks, pkg);
    forall t | t in s.tasks && t.pkgName == pkg ensures Matches(config, s.files, t) {
      assert TaskOk(ViewOf(config, s, pkg), t);
    }
  }

  predicate IsStepOf(action: Action, c: nat) {
    action == ReadFile(c) || action == WriteFile(c) || (action.FailFile? && action.c == c)
  }

  /** Steps of other calls do not disturb a sync in progress. */
  lemma OthersKeepSyncing(config: Config, s: System, action: Action, c: nat, pkg: string)
    requires Syncing(config, s, c, pkg) && DisciplinedFor(s, action, pkg) && !IsStepOf(action, c)
    ensures Syncing(config, Next(config, s, action), c, pkg) && Next(config, s, action).calls[c] == s.calls[c]
  {
    hide Query, Next, DisciplinedFor, IsStepOf, TasksOf, LockInv, AllStorable;
    NextKeepsPkgInv(config, s, action, pkg);
    assert forall d :: d in s.calls && s.calls[d].pkg == pkg ==> d in ViewOf(config, s, pkg).calls;
    OthersKeepCall(config, s, action, c);
    OthersKeepLoaded(config, s, action, c, pkg);
  }

  lemma OthersKeepCall(config: Config, s: System, action: Action, c: nat)
    requires c in s.calls && IsSync(s.calls[c]) && !IsStepOf(action, c) && s.calls[c].pkg !in s.failed
    requires forall d :: d in s.calls && s.calls[d].pkg == s.calls[c].pkg ==> d == c
    ensures var s' := Next(config, s, action);
      c in s'.calls && s'.calls[c] == s.calls[c] && s.calls[c].pkg !in s'.failed
  {
    hide Query, Changed, Written, SaveList, IsValidFlags, Names, Modified, IndexOfUid, IndexOfPkg, PathFits, IsRemoval;
  }

  lemma OthersKeepLoaded(config: Config, s: System, action: Action, c: nat, pkg: string)
    requires c in s.calls && s.calls[c].pkg == pkg && DisciplinedFor(s, action, pkg) && TasksOf(s.tasks, pkg) != []
    ensures TasksOf(Next(config, s, action).tasks, pkg) != []
  {
    hide TasksOf, DoReadFile, DoWriteFile, DoFailFile, DoBeginFlags, DoBeginLoad, DoAbortLoad, DoBeginSave, Changed, Names, IndexOfPkg;
    var s' := Next(config, s, action);
    OnlyGrantsAndLoadsChangeTasks(config, s, action);
    HasTaskIff(s.tasks, pkg);
    HasTaskIff(s'.tasks, pkg);
    var k :| 0 <= k < |s.tasks| && s.tasks[k].pkgName == pkg;
    match action {
      case FinishLoad(e) => assert s'.tasks == s.tasks || s'.tasks[k + 1] == s.tasks[k];
      case DoUnLoad(uid) =>
        var i := IndexOfUid(s.tasks, uid);
        assert c in CallsOn(s.calls, pkg);
        assert s'.tasks == s.tasks || s'.tasks[if k < i then k else k - 1] == s.tasks[k];
      case _ =>
        assert |s'.tasks| == |s.tasks| && s'.tasks[k].pkgName == pkg;
    }
  }

  lemma {:induction false} OthersRunKeepsSyncing(config: Config, s: System, actions: seq<Action>, c: nat, pkg: string)
    requires Syncing(config, s, c, pkg) && DisciplinedRunFor(config, s, actions, pkg)
    requires forall i :: 0 <= i < |actions| ==> !IsStepOf(actions[i], c)
    ensures var s' := Execute(config, s, actions);
      Syncing(config, s', c, pkg) && s'.calls[c] == s.calls[c]
    decreases |actions|
  {
    hide PkgInv, DisciplinedFor, Next, IsStepOf;
    if actions == [] {
    } else {
      OthersKeepSyncing(config, s, actions[0], c, pkg);
      OthersRunKeepsSyncing(config, Next(config, s, actions[0]), actions[1..], c, pkg);
    }
  }

  /** A sync whose accesses do not fail leaves its package's task matching the file, whatever other calls
      do before its read and between its read and its write. */
  lemma SyncCompletes(config: Config, s: System, before: seq<Action>, between: seq<Action>, c: nat, pkg: string)
    requires Syncing(config, s, c, pkg) && s.calls[c].SyncPending?
    requires DisciplinedRunFor(config, s, before, pkg)
    requires forall i :: 0 <= i < |before| ==> !IsStepOf(before[i], c)
    requires DisciplinedRunFor(config, DoReadFile(config, Execute(config, s, before), c), between, pkg)
    requires forall i :: 0 <= i < |between| ==> !IsStepOf(between[i], c)
    ensures
      var read := DoReadFile(config, Execute(config, s, before), c);
      var written := DoWriteFile(Execute(config, read, between), c);
      if c in read.calls then c !in written.calls && InStep(config, written, pkg) else InStep(config, read, pkg)
  {
    hide Execute, DisciplinedRunFor, IsStepOf, PkgInv, DoReadFile, DoWriteFile, InStep;
    OthersRunKeepsSyncing(config, s, before, c, pkg);
    var s1 := Execute(config, s, before);
    SyncRestoresMatch(config, s1, c, pkg);
    var read := DoReadFile(config, s1, c);
    if c in read.calls {
      OthersRunKeepsSyncing(config, read, between, c, pkg);
      SyncRestoresMatch(config, Execute(config, read, between), c, pkg);
    }
  }

  // ---- after a failure

  /** A sync that fails without touching the file leaves its package's task ahead of the file by exactly
      the change that failed, with no call on the package. */
  lemma FailedSyncAwaits(config: Config, s: System, c: nat, k: nat)
    requires c in s.calls && PkgInv(config, s, s.calls[c].pkg) && IsSync(s.calls[c])
    requires k < |s.tasks| && s.tasks[k].pkgName == s.calls[c].pkg && s.calls[c].pkg !in s.failed
    ensures
      var s' := DoFailFile(s, c, Untouched);
      && s'.tasks == s.tasks && s'.files == s.files && Idle(s', s.calls[c].pkg)
      && AheadBy(Query(config, s'.files, s.calls[c].pkg), s.tasks[k], s.calls[c].permName, s.calls[c].change)
  {
    hide Query, TasksOf, SameGrants, Changed, AllStorable, LockInv;
    var v := ViewOf(config, s, s.calls[c].pkg);
    TasksOfMembers(s.tasks, s.calls[c].pkg);
    assert TaskOk(v, s.tasks[k]) && c in v.calls;
    OnlyCall(v, c);
    CallsOnEnded(s.calls, c, s.calls[c].pkg);
  }

  /** Making the change of the failed call again, to task and file, restores the match. */
  lemma RepeatedSyncMatches(config: Config, files: Files, t: Task, permName: string, change: Change)
    requires StorableAt(config, files, t.pkgName) && AheadBy(Query(config, files, t.pkgName), t, permName, change)
    ensures TaskAfter(t, permName, change) == t
    ensures Matches(config, Synced(config, files, t.pkgName, permName, change), t)
    ensures !Names(t, permName) ==> Synced(config, files, t.pkgName, permName, change) == files
  {
    hide Query, Written;
    var ps := Query(config, files, t.pkgName).value;
    SyncReadsAsChanged(config, files, t.pkgName, permName, change);
    ChangeKeepsNames(ps, permName, change);
    SameNamesSameIndex(Changed(ps, permName, change), t.perms, permName);
    var i := IndexOfName(ps, permName);
    if change.SetGranted? && i < |ps| {
      assert t.perms[i].granted == change.granted;
      assert Apply(t.perms[i], change) == t.perms[i];
    }
  }

  lemma SyncUninterrupted(config: Config, s: System, e: nat, pkg: string, permName: string, change: Change)
    requires e in s.calls && s.calls[e] == SyncPending(pkg, permName, change) && Query(config, s.files, pkg).Success?
    ensures
      var s' := DoWriteFile(DoReadFile(config, s, e), e);
      && s'.calls == s.calls - {e} && s'.tasks == s.tasks
      && s'.files == Synced(config, s.files, pkg, permName, change)
  {
    hide Query, Written, Changed;
  }

  /** Repeating the failed grant by package or by uid, or the failed flags update, restores the match. */
  lemma RepeatRestoresMatch(config: Config, s: System, c: nat, e: nat, k: nat, again: Action)
    requires c in s.calls && PkgInv(config, s, s.calls[c].pkg) && IsSync(s.calls[c]) && s.holder.None? && e !in s.calls - {c}
    requires k < |s.tasks| && s.tasks[k].pkgName == s.calls[c].pkg && s.calls[c].pkg !in s.failed
    requires
      var a := s.calls[c];
      match a.change
      case SetGranted(g) => again == BeginGrant(e, a.pkg, a.permName, g) || again == BeginRuntime(e, s.tasks[k].uid, a.permName, g)
      case SetFlags(f) => IsValidFlags(f) && again == BeginFlags(e, a.pkg, a.permName, f)
    ensures
      var s' := DoWriteFile(DoReadFile(config, Next(config, DoFailFile(s, c, Untouched), again), e), e);
      s'.calls == s.calls - {c} && s'.tasks == s.tasks && Matches(config, s'.files, s.tasks[k])
  {
    hide Query, TasksOf, CallsOn, Changed, DoReadFile, DoWriteFile, Synced, Matches, IsValidFlags, IndexOfName, ViewOk;
    var a, t, s1 := s.calls[c], s.tasks[k], DoFailFile(s, c, Untouched);
    FailedSyncAwaits(config, s, c, k);
    OnlyTaskIsFound(config, s, k);
    RepeatedSyncMatches(config, s.files, t, a.permName, a.change);
    var s2 := Next(config, s1, again);
    if e in s2.calls {
      assert s2.tasks == s.tasks && s2.calls - {e} == s.calls - {c};
      SyncUninterrupted(config, s2, e, a.pkg, a.permName, a.change);
    } else {
      assert s2 == s1 && !Names(t, a.permName);
      NothingToSync(config, s2, e);
    }
  }

  /** Lookups by package and by uid find the package's one task. */
  lemma OnlyTaskIsFound(config: Config, s: System, k: nat)
    requires k < |s.tasks| && PkgInv(config, s, s.tasks[k].pkgName)
    ensures IndexOfPkg(s.tasks, s.tasks[k].pkgName) == k && IndexOfUid(s.tasks, s.tasks[k].uid) == k
    ensures StorableAt(config, s.files, s.tasks[k].pkgName)
  {
    hide Query, TasksOf, AllStorable, IndexOfPkg;
    var pkg := s.tasks[k].pkgName;
    var i := IndexOfPkg(s.tasks, pkg);
    assert i <= k;
    TasksOfSplit(s.tasks, k, pkg);
    if i < k {
      TasksOfSplit(s.tasks[..k], i, pkg);
    }
  }

  // ---- every package at once

  ghost predicate Inv(config: Config, s: System) {
    LockInv(s) && forall pkg :: ViewOk(ViewOf(config, s, pkg))
  }

  ghost predicate Disciplined(s: System, action: Action) {
    forall pkg :: DisciplinedFor(s, action, pkg)
  }

  ghost predicate DisciplinedRun(config: Config, s: System, actions: seq<Action>) {
    forall pkg :: DisciplinedRunFor(config, s, actions, pkg)
  }

  lemma NextKeepsInv(config: Config, s: System, action: Action)
    requires Inv(config, s) && Disciplined(s, action)
    ensures Inv(config, Next(config, s, action))
  {
    hide LockInv, ViewOk, Next, DisciplinedFor;
    NextKeepsLock(config, s, action);
    forall pkg ensures ViewOk(ViewOf(config, Next(config, s, action), pkg)) {
      NextKeepsView(config, s, action, pkg);
    }
  }

  lemma ReachableIsCoherent(config: Config, s: System, actions: seq<Action>)
    requires Inv(config, s) && DisciplinedRun(config, s, actions)
    ensures Inv(config, Execute(config, s, actions))
  {
    hide LockInv, ViewOk, Execute, DisciplinedRunFor, OneTaskPerUid;
    EveryInterleavingKeepsUidsUnique(config, s, actions);
    forall pkg ensures ViewOk(ViewOf(config, Execute(config, s, actions), pkg)) {
      RunKeepsPkgInv(config, s, actions, pkg);
    }
  }
}
