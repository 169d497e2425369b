/** The loaded tasks as a cache of the permission files: agreement over every sequential run, for each
    package on its own. What other packages do, and what is in their files, does not matter. */
module Coherence {
  import opened Common
  import opened PmsTypes
  import opened PermissionCodec
  import opened PmsModel
  import opened FileSync
  import opened PackageTasks
  import Decimal

  /** The task's permissions read the same as its package file, on name and granted value. */
  ghost predicate Matches(config: Config, files: Files, t: Task) {
    var q := Query(config, files, t.pkgName);
    q.Success? && SameGrants(q.value, t.perms)
  }

  ghost predicate WellFormedTask(t: Task) {
    t.uid >= 0 && |t.pkgName| < PKG_NAME_LEN
  }

  /** The package has at most one task, which matches its file, and the file survives another write. */
  ghost predicate PkgCoherent(config: Config, s: State, pkg: string) {
    && StorableAt(config, s.files, pkg)
    && |TasksOf(s.tasks, pkg)| <= 1
    && forall t :: t in TasksOf(s.tasks, pkg) ==> WellFormedTask(t) && Matches(config, s.files, t)
  }

  /** What the callers keep to for the package: it runs under one uid at a time and is not installed,
      upgraded or deleted while it runs. Calls on other packages are free. */
  ghost predicate AllowedFor(s: State, call: Call, pkg: string) {
    match call
    case Load(identifier, uid) =>
      identifier == pkg ==> IndexOfUid(s.tasks, uid) < |s.tasks| || TasksOf(s.tasks, pkg) == []
    case Save(identifier, _, _) => identifier == pkg ==> TasksOf(s.tasks, pkg) == []
    case Delete(identifier) => identifier == pkg ==> TasksOf(s.tasks, pkg) == []
    case _ => true
  }

  /** The same for every package. */
  ghost predicate Coherent(config: Config, s: State) {
    OneTaskPerUid(s.tasks) && forall pkg :: PkgCoherent(config, s, pkg)
  }

  ghost predicate Allowed(s: State, call: Call) {
    forall pkg :: AllowedFor(s, call, pkg)
  }

  // ---- one call

  lemma GrantKeepsSameGrants(a: seq<PermissionSaved>, b: seq<PermissionSaved>, permName: string, g: Status)
    requires SameGrants(a, b)
    ensures IndexOfName(a, permName) == IndexOfName(b, permName)
    ensures SameGrants(Changed(a, permName, SetGranted(g)), Changed(b, permName, SetGranted(g)))
  {
    SameNamesSameIndex(a, b, permName);
  }

  lemma SameGrantsAnswer(a: seq<PermissionSaved>, b: seq<PermissionSaved>, n: string)
    requires SameGrants(a, b)
    ensures |a| == |b| && GrantedOf(a, n) == GrantedOf(b, n) && IndexOfName(a, n) == IndexOfName(b, n)
  {
    SameNamesSameIndex(a, b, n);
  }

  lemma FlagsKeepSameGrants(a: seq<PermissionSaved>, b: seq<PermissionSaved>, permName: string, f: int32)
    requires SameGrants(a, b)
    ensures SameGrants(Changed(a, permName, SetFlags(f)), b)
  {
  }

  /** Nothing that leaves the package's tasks and file alone breaks its coherence. */
  lemma OtherPackagesDoNotMatter(config: Config, s: State, s': State, pkg: string)
    requires PkgCoherent(config, s, pkg)
    requires TasksOf(s'.tasks, pkg) == TasksOf(s.tasks, pkg)
    requires Query(config, s'.files, pkg) == Query(config, s.files, pkg)
    ensures PkgCoherent(config, s', pkg)
  {
    hide Query, TasksOf;
    TasksOfMembers(s.tasks, pkg);
  }

  lemma LoadKeepsCoherence(config: Config, s: State, identifier: string, uid: int, pkg: string)
    requires PkgCoherent(config, s, pkg) && AllowedFor(s, Load(identifier, uid), pkg)
    ensures PkgCoherent(config, LoadStep(config, s, identifier, uid).state, pkg)
  {
    hide Query, TasksOf, IndexOfUid;
    var s' := LoadStep(config, s, identifier, uid).state;
    if s' != s {
      TasksOfNew(s'.tasks[0], s.tasks, pkg);
      TasksOfMembers(s.tasks, pkg);
    }
  }

  lemma UnLoadKeepsCoherence(config: Config, s: State, uid: int, pkg: string)
    requires PkgCoherent(config, s, pkg)
    ensures PkgCoherent(config, s.(tasks := WithoutUid(s.tasks, uid)), pkg)
  {
    hide Query, TasksOf, IndexOfUid, WithoutUid, Matches;
    TasksOfWithout(s.tasks, uid, pkg);
  }

  lemma SyncTouchesOneFile(config: Config, files: Files, identifier: string, permName: string, c: Change)
    ensures SameElsewhere(files, Synced(config, files, identifier, permName, c), identifier)
  {
    hide Query, Encode, Changed;
  }

  /** Memory step and file step of a grant on task k together keep the cache coherent. */
  lemma GrantOnTaskKeepsCoherence(config: Config, s: State, k: nat, permName: string, g: Status, pkg: string)
    requires PkgCoherent(config, s, pkg) && k < |s.tasks|
    ensures PkgCoherent(config, SyncStep(config, s.(tasks := Modified(s.tasks, k, permName, g)),
                                         s.tasks[k].pkgName, permName, SetGranted(g)).state, pkg)
  {
    hide Query, TasksOf, Synced, Changed, SameGrants, AllStorable;
    var t := s.tasks[k];
    var s1 := s.(tasks := Modified(s.tasks, k, permName, g));
    TasksOfUpdate(s.tasks, k, s1.tasks[k], pkg);
    if t.pkgName == pkg {
      assert t in TasksOf(s.tasks, pkg);
      SyncReadsAsChanged(config, s.files, pkg, permName, SetGranted(g));
      GrantKeepsSameGrants(Query(config, s.files, pkg).value, t.perms, permName, g);
      ChangeKeepsStorable(Query(config, s.files, pkg).value, permName, SetGranted(g));
    } else {
      var s2 := SyncStep(config, s1, t.pkgName, permName, SetGranted(g)).state;
      SyncTouchesOneFile(config, s.files, t.pkgName, permName, SetGranted(g));
      SameFileSameQuery(config, s.files, s2.files, t.pkgName, pkg);
      OtherPackagesDoNotMatter(config, s, s2, pkg);
    }
  }

  /** A file update that no loaded task's grants depend on. */
  lemma SyncWithoutTaskKeepsCoherence(config: Config, s: State, identifier: string, permName: string, c: Change, pkg: string)
    requires PkgCoherent(config, s, pkg)
    requires c.SetFlags? || IndexOfPkg(s.tasks, identifier) == |s.tasks|
    ensures PkgCoherent(config, SyncStep(config, s, identifier, permName, c).state, pkg)
  {
    hide Query, TasksOf, Synced, Changed, SameGrants, AllStorable, IndexOfPkg;
    var s' := SyncStep(config, s, identifier, permName, c).state;
    TasksOfLookup(s.tasks, pkg);
    TasksOfMembers(s.tasks, pkg);
    if identifier != pkg {
      SyncTouchesOneFile(config, s.files, identifier, permName, c);
      SameFileSameQuery(config, s.files, s'.files, identifier, pkg);
      OtherPackagesDoNotMatter(config, s, s', pkg);
    } else if Query(config, s.files, pkg).Success? {
      SyncReadsAsChanged(config, s.files, pkg, permName, c);
      ChangeKeepsStorable(Query(config, s.files, pkg).value, permName, c);
      forall t | t in TasksOf(s.tasks, pkg) ensures Matches(config, s'.files, t) {
        FlagsKeepSameGrants(Query(config, s.files, pkg).value, t.perms, permName, c.flags);
      }
    }
  }

  /** A package without tasks is coherent whatever is written to its file. */
  lemma SaveKeepsCoherence(config: Config, s: State, identifier: string, requests: seq<PermissionTrans>, isUpdate: int, pkg: string)
    requires PkgCoherent(config, s, pkg) && AllowedFor(s, Save(identifier, requests, isUpdate), pkg)
    ensures PkgCoherent(config, SaveStep(config, s, identifier, requests, isUpdate).state, pkg)
  {
    hide Query, TasksOf, Encode, SaveList, AllStorable;
    var s' := SaveStep(config, s, identifier, requests, isUpdate).state;
    var list := SaveList(config, s.files, identifier, requests, isUpdate);
    if identifier != pkg {
      SameFileSameQuery(config, s.files, s'.files, identifier, pkg);
      OtherPackagesDoNotMatter(config, s, s', pkg);
    } else if s'.files == s.files - {identifier} {
      MissingIsStorable(config, s.files, identifier);
    } else if list.Success? {
      WrittenIsStorable(config, s.files, identifier, list.value);
    }
  }

  lemma MissingIsStorable(config: Config, files: Files, identifier: string)
    ensures StorableAt(config, files - {identifier}, identifier)
  {
    hide Decode;
  }

  lemma DeleteKeepsCoherence(config: Config, s: State, identifier: string, pkg: string)
    requires PkgCoherent(config, s, pkg) && AllowedFor(s, Delete(identifier), pkg)
    ensures PkgCoherent(config, s.(files := s.files - {identifier}), pkg)
  {
    hide Query, TasksOf, AllStorable;
    var s' := s.(files := s.files - {identifier});
    if identifier != pkg {
      SameFileSameQuery(config, s.files, s'.files, identifier, pkg);
      OtherPackagesDoNotMatter(config, s, s', pkg);
    } else {
      MissingIsStorable(config, s.files, identifier);
    }
  }

  /** Every call keeps the package coherent, provided it is allowed as far as this package goes. */
  lemma StepKeepsPkgCoherent(config: Config, s: State, call: Call, pkg: string)
    requires PkgCoherent(config, s, pkg) && AllowedFor(s, call, pkg)
    ensures PkgCoherent(config, Step(config, s, call).state, pkg)
  {
    hide PkgCoherent, AllowedFor, Query, Synced, SaveStep, LoadStep, SyncStep, Modified;
    match call
    case Load(identifier, uid) => LoadKeepsCoherence(config, s, identifier, uid, pkg);
    case UnLoad(uid) => UnLoadKeepsCoherence(config, s, uid, pkg);
    case Grant(identifier, permName, g) =>
      var k := IndexOfPkg(s.tasks, identifier);
      if k < |s.tasks| {
        GrantOnTaskKeepsCoherence(config, s, k, permName, g, pkg);
      } else {
        SyncWithoutTaskKeepsCoherence(config, s, identifier, permName, SetGranted(g), pkg);
      }
    case GrantRuntime(uid, permName, g) =>
      var k := IndexOfUid(s.tasks, uid);
      if k < |s.tasks| {
        GrantOnTaskKeepsCoherence(config, s, k, permName, g, pkg);
      }
    case UpdateFlags(identifier, permName, flags) =>
      if IsValidFlags(flags) {
        SyncWithoutTaskKeepsCoherence(config, s, identifier, permName, SetFlags(flags), pkg);
      }
    case Save(identifier, requests, isUpdate) => SaveKeepsCoherence(config, s, identifier, requests, isUpdate, pkg);
    case Delete(identifier) => DeleteKeepsCoherence(config, s, identifier, pkg);
  }

  // ---- runs

  function Run(config: Config, s: State, calls: seq<Call>): State
    decreases |calls|
  {
    if calls == [] then s else Run(config, Step(config, s, calls[0]).state, calls[1..])
  }

  ghost predicate AllowedRunFor(config: Config, s: State, calls: seq<Call>, pkg: string)
    decreases |calls|
  {
    calls == [] || (AllowedFor(s, calls[0], pkg) && AllowedRunFor(config, Step(config, s, calls[0]).state, calls[1..], pkg))
  }

  /** What CheckPermissionStat must answer according to the files. */
  function FileAnswer(config: Config, s: State, uid: int, permName: string): int {
    var k := IndexOfUid(s.tasks, uid);
    if k == |s.tasks| then RET_NOK
    else match Query(config, s.files, s.tasks[k].pkgName)
      case Failure(_) => RET_NOK
      case Success(ps) => GrantedOf(ps, permName)
  }

  /** A check of a uid whose task matches its file answers what the file says. */
  lemma MatchingTaskAnswers(config: Config, s: State, uid: int, permName: string)
    requires uid >= 0
    requires var k := IndexOfUid(s.tasks, uid); k < |s.tasks| ==> Matches(config, s.files, s.tasks[k])
    ensures CheckPermissionStat(s, uid, permName) == FileAnswer(config, s, uid, permName)
  {
    hide Query;
    var k := IndexOfUid(s.tasks, uid);
    if k < |s.tasks| {
      SameNamesSameIndex(Query(config, s.files, s.tasks[k].pkgName).value, s.tasks[k].perms, permName);
    }
  }

  /** After any run in which the calls on the package are allowed, whatever the others are, the package's
      task matches its file and every check of its uid answers as the file does. */
  lemma {:induction false} RunStaysPkgCoherent(config: Config, s: State, calls: seq<Call>, pkg: string)
    requires PkgCoherent(config, s, pkg) && AllowedRunFor(config, s, calls, pkg)
    ensures PkgCoherent(config, Run(config, s, calls), pkg)
    ensures
      var s' := Run(config, s, calls);
      forall uid, permName :: uid >= 0 && IndexOfUid(s'.tasks, uid) < |s'.tasks| && s'.tasks[IndexOfUid(s'.tasks, uid)].pkgName == pkg ==>
        CheckPermissionStat(s', uid, permName) == FileAnswer(config, s', uid, permName)
    decreases |calls|
  {
    hide AllowedFor, Step, Query, TasksOf, StorableAt, Matches, FileAnswer, CheckPermissionStat;
    if calls == [] {
      TasksOfMembers(s.tasks, pkg);
      forall uid, permName | uid >= 0 && IndexOfUid(s.tasks, uid) < |s.tasks| && s.tasks[IndexOfUid(s.tasks, uid)].pkgName == pkg
        ensures CheckPermissionStat(s, uid, permName) == FileAnswer(config, s, uid, permName)
      {
        MatchingTaskAnswers(config, s, uid, permName);
      }
    } else {
      StepKeepsPkgCoherent(config, s, calls[0], pkg);
      RunStaysPkgCoherent(config, Step(config, s, calls[0]).state, calls[1..], pkg);
    }
  }

  // ---- uids

  lemma StepKeepsUnique(config: Config, s: State, call: Call)
    requires OneTaskPerUid(s.tasks)
    ensures OneTaskPerUid(Step(config, s, call).state.tasks)
  {
    hide Query, Synced, SaveList, IndexOfPkg, IsValidFlags, Names, Changed, IndexOfUid, WithoutUid;
    match call
    case UnLoad(uid) => RemovalKeepsUnique(s.tasks, uid);
    case _ =>
  }

  /** Uids are pairwise distinct in every state any run reaches from an empty list. */
  lemma {:induction false} RunKeepsUidsUnique(config: Config, s: State, calls: seq<Call>)
    requires OneTaskPerUid(s.tasks)
    ensures OneTaskPerUid(Run(config, s, calls).tasks)
    decreases |calls|
  {
    hide Step, OneTaskPerUid;
    if calls == [] {
    } else {
      StepKeepsUnique(config, s, calls[0]);
      RunKeepsUidsUnique(config, Step(config, s, calls[0]).state, calls[1..]);
    }
  }

  // ---- the whole store

  /** What coherence of every package comes to: one task per package and per uid, every task matching its
      file, and files that survive another write. */
  lemma CoherentMeaning(config: Config, s: State)
    ensures Coherent(config, s) <==>
      && OneTaskPerUid(s.tasks) && OneTaskPerPkg(s.tasks)
      && (forall pkg :: StorableAt(config, s.files, pkg))
      && forall t :: t in s.tasks ==> WellFormedTask(t) && Matches(config, s.files, t)
  {
    hide TasksOf, StorableAt, Matches, WellFormedTask, OneTaskPerUid, OneTaskPerPkg;
    OneTaskPerPkgIff(s.tasks);
    if Coherent(config, s) {
      forall pkg ensures StorableAt(config, s.files, pkg) && |TasksOf(s.tasks, pkg)| <= 1 {
        assert PkgCoherent(config, s, pkg);
      }
      forall t | t in s.tasks ensures WellFormedTask(t) && Matches(config, s.files, t) {
        assert PkgCoherent(config, s, t.pkgName);
        TasksOfMembers(s.tasks, t.pkgName);
      }
    } else if OneTaskPerUid(s.tasks) && OneTaskPerPkg(s.tasks) {
      var pkg :| !PkgCoherent(config, s, pkg);
      TasksOfMembers(s.tasks, pkg);
      if StorableAt(config, s.files, pkg) {
        assert |TasksOf(s.tasks, pkg)| <= 1;
        var t :| t in TasksOf(s.tasks, pkg) && !(WellFormedTask(t) && Matches(config, s.files, t));
        assert t in s.tasks;
      }
    }
  }

  lemma StepKeepsCoherence(config: Config, s: State, call: Call)
    requires Coherent(config, s) && Allowed(s, call)
    ensures Coherent(config, Step(config, s, call).state)
  {
    hide PkgCoherent, AllowedFor, Step, OneTaskPerUid;
    StepKeepsUnique(config, s, call);
    forall pkg ensures PkgCoherent(config, Step(config, s, call).state, pkg) {
      StepKeepsPkgCoherent(config, s, call, pkg);
    }
  }

  ghost predicate AllowedRun(config: Config, s: State, calls: seq<Call>) {
    forall pkg :: AllowedRunFor(config, s, calls, pkg)
  }

  /** The result for every package at once. */
  lemma RunStaysCoherent(config: Config, s: State, calls: seq<Call>)
    requires Coherent(config, s) && AllowedRun(config, s, calls)
    ensures Coherent(config, Run(config, s, calls))
    ensures forall uid, permName :: uid >= 0 ==>
      CheckPermissionStat(Run(config, s, calls), uid, permName) == FileAnswer(config, Run(config, s, calls), uid, permName)
  {
    hide PkgCoherent, AllowedRunFor, Run, FileAnswer, CheckPermissionStat, OneTaskPerUid;
    var s' := Run(config, s, calls);
    RunKeepsUidsUnique(config, s, calls);
    forall pkg ensures PkgCoherent(config, s', pkg) {
      RunStaysPkgCoherent(config, s, calls, pkg);
    }
    forall uid, permName | uid >= 0
      ensures CheckPermissionStat(s', uid, permName) == FileAnswer(config, s', uid, permName)
    {
      var k := IndexOfUid(s'.tasks, uid);
      if k < |s'.tasks| {
        RunStaysPkgCoherent(config, s, calls, s'.tasks[k].pkgName);
      } else {
        NotLoadedAnswers(config, s', uid, permName);
      }
    }
  }

  lemma NotLoadedAnswers(config: Config, s: State, uid: int, permName: string)
    requires uid >= 0 && IndexOfUid(s.tasks, uid) == |s.tasks|
    ensures CheckPermissionStat(s, uid, permName) == FileAnswer(config, s, uid, permName)
  {
  }

  // ---- reloading

  /** The state after unloading task k and loading its package again under the same uid. */
  function Reloaded(config: Config, s: State, k: nat): State
    requires k < |s.tasks|
  {
    Step(config, Step(config, s, UnLoad(s.tasks[k].uid)).state, Load(s.tasks[k].pkgName, s.tasks[k].uid)).state
  }

  /** Reloading moves the task to the front, freshly read from its file. */
  lemma ReloadedState(config: Config, s: State, k: nat)
    requires OneTaskPerUid(s.tasks) && k < |s.tasks| && WellFormedTask(s.tasks[k]) && Matches(config, s.files, s.tasks[k])
    ensures
      var t := s.tasks[k];
      var q := Query(config, s.files, t.pkgName);
      && q.Success? && SameGrants(q.value, t.perms)
      && Reloaded(config, s, k) == s.(tasks := [t.(perms := q.value)] + (s.tasks[..k] + s.tasks[k + 1..]))
  {
    hide Decode;
    UnloadedUidIsGone(s.tasks, k);
  }

  /** Unloading removes exactly that task, and no lookup of its uid succeeds afterwards. */
  lemma UnloadedUidIsGone(tasks: seq<Task>, k: nat)
    requires OneTaskPerUid(tasks) && k < |tasks|
    ensures IndexOfUid(tasks, tasks[k].uid) == k
    ensures var rest := WithoutUid(tasks, tasks[k].uid);
      rest == tasks[..k] + tasks[k + 1..] && IndexOfUid(rest, tasks[k].uid) == |rest|
  {
    var rest := tasks[..k] + tasks[k + 1..];
    assert IndexOfUid(tasks, tasks[k].uid) == k;
    forall j | 0 <= j < |rest| ensures rest[j].uid != tasks[k].uid {}
  }

  /** Reloading a task that matches its file is transparent: no answer changes, for any uid and any
      permission, whatever the other tasks and files are like. */
  lemma ReloadIsTransparent(config: Config, s: State, k: nat, u: int, permName: string)
    requires OneTaskPerUid(s.tasks) && k < |s.tasks| && WellFormedTask(s.tasks[k]) && Matches(config, s.files, s.tasks[k])
    ensures Reloaded(config, s, k).files == s.files
    ensures CheckPermissionStat(Reloaded(config, s, k), u, permName) == CheckPermissionStat(s, u, permName)
  {
    hide Query;
    ReloadedState(config, s, k);
    RefreshedTaskAnswersAlike(s.tasks, k, Query(config, s.files, s.tasks[k].pkgName).value, u, permName);
  }

  lemma RefreshedTaskAnswersAlike(tasks: seq<Task>, k: nat, ps: seq<PermissionSaved>, u: int, permName: string)
    requires OneTaskPerUid(tasks) && k < |tasks| && SameGrants(ps, tasks[k].perms)
    ensures GrantedIn([tasks[k].(perms := ps)] + (tasks[..k] + tasks[k + 1..]), u, permName) == GrantedIn(tasks, u, permName)
  {
    var t := tasks[k].(perms := ps);
    if u == t.uid {
      assert IndexOfUid(tasks, u) == k;
      assert IndexOfUid([t] + (tasks[..k] + tasks[k + 1..]), u) == 0;
      SameNamesSameIndex(ps, tasks[k].perms, permName);
    } else {
      OtherTasksKeepTheirAnswers(tasks, k, t, u);
    }
  }

  /** Moving task k to the front, with whatever permissions, does not affect lookups of other uids. */
  lemma OtherTasksKeepTheirAnswers(tasks: seq<Task>, k: nat, t: Task, u: int)
    requires OneTaskPerUid(tasks) && k < |tasks| && t.uid == tasks[k].uid && u != t.uid
    ensures
      var tasks' := [t] + (tasks[..k] + tasks[k + 1..]);
      var i, j := IndexOfUid(tasks, u), IndexOfUid(tasks', u);
      (i == |tasks| && j == |tasks'|) || (i < |tasks| && j < |tasks'| && tasks[i] == tasks'[j])
  {
    var tasks' := [t] + (tasks[..k] + tasks[k + 1..]);
    var i, j := IndexOfUid(tasks, u), IndexOfUid(tasks', u);
    forall m | 1 <= m < |tasks'| ensures tasks'[m] == tasks[if m <= k then m - 1 else m] {}
    if i < |tasks| {
      assert tasks'[if i < k then i + 1 else i] == tasks[i];
    }
  }

  /** The task after a call that makes the change: only grants and revokes reach the task list. */
  function TaskAfter(t: Task, permName: string, c: Change): Task {
    if c.SetGranted? then t.(perms := Changed(t.perms, permName, c)) else t
  }

  /** Why files must be storable: from a matching task, a completed grant, revoke or flags update leaves
      the task matching exactly when there was nothing to write or every granted value written is 0 or 1. */
  lemma SyncMatchesIff(config: Config, files: Files, t: Task, permName: string, c: Change)
    requires Matches(config, files, t)
    ensures
      var ps := Query(config, files, t.pkgName).value;
      var qs := Changed(ps, permName, c);
      Matches(config, Synced(config, files, t.pkgName, permName, c), TaskAfter(t, permName, c))
      <==> (qs == ps || AllStorable(qs))
  {
    hide Query, NormalList, Changed;
    var ps := Query(config, files, t.pkgName).value;
    var qs := Changed(ps, permName, c);
    ChangeReachesTask(ps, t, permName, c);
    SyncReadsAs(config, files, t.pkgName, permName, c);
    ChangeKeepsTexts(config, files, t.pkgName, permName, c);
    NormalMatchesIff(qs, TaskAfter(t, permName, c).perms);
  }

  lemma ChangeReachesTask(ps: seq<PermissionSaved>, t: Task, permName: string, c: Change)
    requires SameGrants(ps, t.perms)
    ensures SameGrants(Changed(ps, permName, c), TaskAfter(t, permName, c).perms)
  {
    match c
    case SetGranted(g) => GrantKeepsSameGrants(ps, t.perms, permName, g);
    case SetFlags(f) => FlagsKeepSameGrants(ps, t.perms, permName, f);
  }

  lemma ChangeKeepsTexts(config: Config, files: Files, identifier: string, permName: string, c: Change)
    requires Query(config, files, identifier).Success?
    ensures TextsFit(Changed(Query(config, files, identifier).value, permName, c))
  {
    hide Query;
    QueriedTextsFit(config, files, identifier);
  }

  lemma NormalMatchesIff(qs: seq<PermissionSaved>, ts: seq<PermissionSaved>)
    requires TextsFit(qs) && SameGrants(qs, ts)
    ensures SameGrants(NormalList(qs), ts) <==> AllStorable(qs)
  {
    if !AllStorable(qs) {
      var i :| 0 <= i < |qs| && !Storable(qs[i]);
      assert NormalList(qs)[i].granted != ts[i].granted;
    }
  }

  /** A file the service itself never writes: its first entry has a numeric granted value of 2. */
  function NumericGrantFile(): FileData {
    Tree(JObject([(FIELD_PERMISSION,
                   JArray([EntryTree("a", "", JNumber(2), "0"), EntryTree("b", "", JBool(false), "0")]))]))
  }

  lemma NumericGrantFileReads()
    ensures Parse(NumericGrantFile()) == Success([PermissionSaved("a", "", 2, 0), PermissionSaved("b", "", 0, 0)])
  {
    hide EntryTree, DecodeEntry;
    var items := [EntryTree("a", "", JNumber(2), "0"), EntryTree("b", "", JBool(false), "0")];
    assert GetObjectItem(NumericGrantFile().root, FIELD_PERMISSION) == Some(JArray(items));
    assert Decimal.Atoi("0") == 0;
    ReadEntryTree("a", "", JNumber(2), "0");
    ReadEntryTree("b", "", JBool(false), "0");
    assert DecodeEntry(items[0]) == Success(PermissionSaved("a", "", 2, 0));
    assert DecodeEntry(items[1]) == Success(PermissionSaved("b", "", 0, 0));
    DecodeUpToMeaning(items, 2);
    var r := DecodeUpTo(items, 2);
    assert r.Success? && r.value == [PermissionSaved("a", "", 2, 0), PermissionSaved("b", "", 0, 0)];
  }

  /** With such a file on disk and its package loaded, both a grant and a flags update of the other
      permission leave cache and file in disagreement, although every access succeeds. */
  lemma NumericGrantBreaksCoherence(config: Config, identifier: string, uid: int, call: Call)
    requires PathFits(config, identifier) && config.validPath(config.permissionPath + identifier)
    requires |identifier| < PKG_NAME_LEN && uid >= 0
    requires call == Grant(identifier, "b", GRANTED) || call == UpdateFlags(identifier, "b", PMS_FLAG_USER_FIXED)
    ensures
      var s := State([], map[identifier := NumericGrantFile()]);
      var s' := Run(config, s, [Load(identifier, uid), call]);
      |s'.tasks| == 1 && !Matches(config, s'.files, s'.tasks[0])
  {
    hide Decode, NumericGrantFile;
    var s := State([], map[identifier := NumericGrantFile()]);
    NumericGrantFileReads();
    var ps := [PermissionSaved("a", "", 2, 0), PermissionSaved("b", "", 0, 0)];
    var t := Task(uid, identifier, ps);
    var s1 := State([t], s.files);
    var calls := [Load(identifier, uid), call];
    var c := if call.Grant? then SetGranted(GRANTED) else SetFlags(PMS_FLAG_USER_FIXED);
    assert Step(config, s, calls[0]).state == s1;
    assert IndexOfName(ps, "b") == 1;
    assert !Storable(Changed(ps, "b", c)[0]);
    SyncMatchesIff(config, s1.files, t, "b", c);
    assert Step(config, s1, call).state == State([TaskAfter(t, "b", c)], Synced(config, s1.files, identifier, "b", c));
    RunOfTwo(config, s, calls);
  }

  lemma RunOfTwo(config: Config, s: State, calls: seq<Call>)
    requires |calls| == 2
    ensures Run(config, s, calls) == Step(config, Step(config, s, calls[0]).state, calls[1]).state
  {
    hide Step;
    var s1 := Step(config, s, calls[0]).state;
    assert calls[1..][1..] == [];
    assert Run(config, s1, calls[1..]) == Run(config, Step(config, s1, calls[1]).state, []);
  }

  /** Why a package may run under one uid only: of two tasks of one package, a completed grant on task k
      leaves task j matching the file exactly when the permission already had that value. */
  lemma TwinMatchesIff(config: Config, s: State, k: nat, j: nat, permName: string, g: Status)
    requires k < |s.tasks| && j < |s.tasks| && k != j && s.tasks[j].pkgName == s.tasks[k].pkgName
    requires Matches(config, s.files, s.tasks[k]) && Matches(config, s.files, s.tasks[j])
    requires Names(s.tasks[k], permName)
    ensures
      var files' := Synced(config, s.files, s.tasks[k].pkgName, permName, SetGranted(g));
      Matches(config, files', s.tasks[j]) <==> GrantedOf(s.tasks[k].perms, permName) == g
  {
    hide Query, Synced, IndexOfName, Changed, GrantedOf, NormalList;
    var identifier := s.tasks[k].pkgName;
    var ps := Query(config, s.files, identifier).value;
    SyncReadsAs(config, s.files, identifier, permName, SetGranted(g));
    OutdatedIff(ps, s.tasks[k].perms, s.tasks[j].perms, permName, g);
  }

  lemma OutdatedIff(ps: seq<PermissionSaved>, us: seq<PermissionSaved>, vs: seq<PermissionSaved>, permName: string, g: Status)
    requires SameGrants(ps, us) && SameGrants(ps, vs) && IndexOfName(us, permName) < |us|
    ensures SameGrants(AfterSync(ps, permName, SetGranted(g)), vs) <==> GrantedOf(us, permName) == g
  {
    SameNamesSameIndex(ps, us, permName);
    var i, qs := IndexOfName(ps, permName), Changed(ps, permName, SetGranted(g));
    if ps[i].granted == g {
      assert qs == ps;
    } else {
      assert NormalList(qs)[i].granted == g;
    }
  }

  /** A grant or revoke by package name reaches the first task i of the package only: any other task j of
      it is left as it was, and matches the file afterwards if and only if nothing changed. */
  lemma GrantLeavesTwinMatchingIff(config: Config, s: State, i: nat, j: nat, permName: string, g: Status)
    requires i < |s.tasks| && j < |s.tasks| && i != j && s.tasks[j].pkgName == s.tasks[i].pkgName
    requires IndexOfPkg(s.tasks, s.tasks[i].pkgName) == i
    requires Matches(config, s.files, s.tasks[i]) && Matches(config, s.files, s.tasks[j])
    requires Names(s.tasks[i], permName)
    ensures
      var s' := GrantStep(config, s, s.tasks[i].pkgName, permName, g).state;
      s'.tasks[j] == s.tasks[j] && (Matches(config, s'.files, s'.tasks[j]) <==> GrantedOf(s.tasks[i].perms, permName) == g)
  {
    hide Query, Synced, IndexOfName, Changed, GrantedOf, IndexOfPkg, Names;
    TwinMatchesIff(config, s, i, j, permName, g);
  }

  /** A runtime grant or revoke reaches the task of that uid only, be it the first of its package or a
      later one, and leaves every other task of the package behind in the same way. */
  lemma RuntimeGrantLeavesTwinMatchingIff(config: Config, s: State, k: nat, j: nat, permName: string, g: Status)
    requires k < |s.tasks| && j < |s.tasks| && k != j && s.tasks[j].pkgName == s.tasks[k].pkgName
    requires IndexOfUid(s.tasks, s.tasks[k].uid) == k
    requires Matches(config, s.files, s.tasks[k]) && Matches(config, s.files, s.tasks[j])
    requires Names(s.tasks[k], permName)
    ensures
      var s' := GrantRuntimeStep(config, s, s.tasks[k].uid, permName, g).state;
      s'.tasks[j] == s.tasks[j] && (Matches(config, s'.files, s'.tasks[j]) <==> GrantedOf(s.tasks[k].perms, permName) == g)
  {
    hide Query, Synced, IndexOfName, Changed, GrantedOf, IndexOfUid, Names;
    TwinMatchesIff(config, s, k, j, permName, g);
  }

  // ---- the documented answer of a check

  /** What the interface header documents: 1 if the application has the permission, otherwise 0. */
  function DocumentedAnswer(s: State, uid: int, permName: string): int {
    if CheckPermissionStat(s, uid, permName) == GRANTED then GRANTED else NOT_GRANTED
  }

  /** The check answers as documented exactly when the uid is loaded, its task names the permission, and
      the first entry of that name has a granted value of 0 or 1. */
  lemma DocumentedAnswerIff(s: State, uid: int, permName: string)
    requires uid >= 0
    ensures CheckPermissionStat(s, uid, permName) == DocumentedAnswer(s, uid, permName)
      <==>
      var k := IndexOfUid(s.tasks, uid);
      && k < |s.tasks| && Names(s.tasks[k], permName)
      && s.tasks[k].perms[IndexOfName(s.tasks[k].perms, permName)].granted in {GRANTED, NOT_GRANTED}
  {
    hide IndexOfUid, IndexOfName;
  }

  /** Before anything is loaded every check answers -1. */
  lemma NothingLoadedAnswersMinusOne(files: Files, uid: int, permName: string)
    requires uid >= 0
    ensures CheckPermissionStat(State([], files), uid, permName) == -1
    ensures DocumentedAnswer(State([], files), uid, permName) == 0
  {
  }
}
