/** What the permission files keep over whole runs: the store invariant, the meaning of an install,
    and the survival of user decisions. No assumption is made about which calls are issued. */
module Store {
  import opened Common
  import opened PmsTypes
  import opened PermissionCodec
  import opened Installation
  import opened PmsModel
  import opened FileSync
  import opened Coherence

  // ---- the store invariant

  predicate GoodFlags(f: int32) { f == PMS_FLAG_DEFAULT || f == PMS_FLAG_USER_FIXED }

  ghost predicate GoodList(config: Config, ps: seq<PermissionSaved>) {
    && 0 < |ps| <= config.maxPermissions
    && DistinctNames(ps)
    && AllStorable(ps)
    && forall i :: 0 <= i < |ps| ==> GoodFlags(ps[i].flags)
  }

  /** Not empty, within the HAL's limit, names pairwise distinct, texts that fit their buffers, granted 0 or
      1, flags 0 or 2. */
  lemma GoodListMeaning(config: Config, ps: seq<PermissionSaved>)
    ensures GoodList(config, ps) <==>
      && 1 <= |ps| <= config.maxPermissions
      && (forall i, j :: 0 <= i < j < |ps| ==> ps[i].name != ps[j].name)
      && forall i :: 0 <= i < |ps| ==>
           && |ps[i].name| <= 63 && |ps[i].desc| <= 127
           && (ps[i].granted == 0 || ps[i].granted == 1) && (ps[i].flags == 0 || ps[i].flags == 2)
  {
  }

  /** The file decodes without error, to a good list. */
  ghost predicate GoodFile(config: Config, file: FileData) {
    file.Tree? && Decode(file.root).Success? && GoodList(config, Decode(file.root).value)
  }

  ghost predicate GoodStore(config: Config, files: Files) {
    forall id :: id in files ==> GoodFile(config, files[id])
  }

  /** If there is a file of that package, it is good. */
  ghost predicate GoodAt(config: Config, files: Files, id: string) {
    id in files ==> GoodFile(config, files[id])
  }

  lemma GoodListIsGoodFile(config: Config, ps: seq<PermissionSaved>)
    requires GoodList(config, ps)
    ensures GoodFile(config, Tree(Encode(ps))) && Decode(Encode(ps)) == Success(ps)
  {
    hide Decode, Encode;
    RoundTrip(ps);
  }

  lemma ChangeKeepsGood(config: Config, ps: seq<PermissionSaved>, permName: string, c: Change)
    requires GoodList(config, ps) && (c.SetFlags? ==> GoodFlags(c.flags))
    ensures GoodList(config, Changed(ps, permName, c))
  {
    ChangeKeepsNames(ps, permName, c);
  }

  lemma SyncKeepsGood(config: Config, files: Files, identifier: string, permName: string, c: Change, id: string)
    requires GoodAt(config, files, id) && (c.SetFlags? ==> GoodFlags(c.flags))
    ensures GoodAt(config, Synced(config, files, identifier, permName, c), id)
  {
    hide Decode, Encode;
    var q := Query(config, files, identifier);
    if q.Success? && identifier == id {
      ChangeKeepsGood(config, q.value, permName, c);
      GoodListIsGoodFile(config, Changed(q.value, permName, c));
    }
  }

  lemma NormalMergedIsGood(config: Config, ps: seq<PermissionSaved>, requests: seq<PermissionTrans>)
    requires requests != [] && |requests| <= config.maxPermissions
    requires forall i :: 0 <= i < |FirstOccurrences(requests)| ==> !TooLong(FirstOccurrences(requests)[i])
    ensures GoodList(config, NormalList(Merged(config.catalogue, ps, FirstOccurrences(requests))))
  {
    FirstOccurrencesSize(requests);
    FirstOccurrencesDistinct(requests);
  }

  /** Whatever was on file, in whatever state, a successful install stores the merged list with granted
      values reduced to 0 or 1, and touches no other file and no task. */
  lemma InstallStores(config: Config, s: State, identifier: string, requests: seq<PermissionTrans>, isUpdate: int)
    requires requests != [] && SaveStep(config, s, identifier, requests, isUpdate).ret == SUCCESS
    ensures
      var s' := SaveStep(config, s, identifier, requests, isUpdate).state;
      var stored := OldPermissions(config, s.files, identifier, isUpdate);
      && s'.tasks == s.tasks && SameElsewhere(s.files, s'.files, identifier)
      && stored.Success?
      && identifier in s'.files && GoodFile(config, s'.files[identifier])
      && Decode(s'.files[identifier].root) == Success(NormalList(Merged(config.catalogue, stored.value, FirstOccurrences(requests))))
  {
    hide Decode, Encode;
    FirstOccurrencesSize(requests);
    var stored := OldPermissions(config, s.files, identifier, isUpdate);
    assert stored.Success?;
    var firsts := FirstOccurrences(requests);
    var merged := Merged(config.catalogue, stored.value, firsts);
    assert forall i :: 0 <= i < |firsts| ==> !TooLong(firsts[i]);
    NormalMergedIsGood(config, stored.value, requests);
    ReadBack(merged);
  }

  lemma SaveKeepsGood(config: Config, s: State, identifier: string, requests: seq<PermissionTrans>, isUpdate: int, id: string)
    requires GoodAt(config, s.files, id)
    ensures GoodAt(config, SaveStep(config, s, identifier, requests, isUpdate).state.files, id)
  {
    hide GoodFile, OldPermissions, Merged, Encode;
    if requests != [] && SaveStep(config, s, identifier, requests, isUpdate).ret == SUCCESS {
      InstallStores(config, s, identifier, requests, isUpdate);
    }
  }

  /** Every call keeps each package's file good, whatever the other files are like. */
  lemma StepKeepsGoodFile(config: Config, s: State, call: Call, id: string)
    requires GoodAt(config, s.files, id)
    ensures GoodAt(config, Step(config, s, call).state.files, id)
  {
    hide Query, GoodFile, Synced, Modified, Names, IndexOfUid, IndexOfPkg, IsValidFlags, SaveStep;
    match call
    case Grant(identifier, permName, g) => SyncKeepsGood(config, s.files, identifier, permName, SetGranted(g), id);
    case GrantRuntime(uid, permName, g) =>
      var k := IndexOfUid(s.tasks, uid);
      if k < |s.tasks| {
        SyncKeepsGood(config, s.files, s.tasks[k].pkgName, permName, SetGranted(g), id);
      }
    case UpdateFlags(identifier, permName, flags) =>
      if IsValidFlags(flags) {
        ValidIsGood(flags);
        SyncKeepsGood(config, s.files, identifier, permName, SetFlags(flags), id);
      }
    case Save(identifier, requests, isUpdate) => SaveKeepsGood(config, s, identifier, requests, isUpdate, id);
    case _ =>
  }

  lemma ValidIsGood(flags: int32)
    ensures IsValidFlags(flags) ==> GoodFlags(flags)
  {
  }

  lemma StepKeepsGoodStore(config: Config, s: State, call: Call)
    requires GoodStore(config, s.files)
    ensures GoodStore(config, Step(config, s, call).state.files)
  {
    hide GoodFile, Step;
    var files' := Step(config, s, call).state.files;
    forall id | id in files' ensures GoodFile(config, files'[id]) {
      StepKeepsGoodFile(config, s, call, id);
    }
  }

  /** Store invariant: whatever calls are made, starting from an empty store (or any good one), every
      file decodes to a non-empty list of at most the allowed size, with distinct names, texts that
      fit, granted 0 or 1 and flags 0 or 2. */
  lemma {:induction false} RunKeepsGoodStore(config: Config, s: State, calls: seq<Call>)
    requires GoodStore(config, s.files)
    ensures GoodStore(config, Run(config, s, calls).files)
    decreases |calls|
  {
    hide Step, GoodStore;
    if calls == [] {
    } else {
      StepKeepsGoodStore(config, s, calls[0]);
      RunKeepsGoodStore(config, Step(config, s, calls[0]).state, calls[1..]);
    }
  }

  // ---- which file a call touches

  /** The package whose file a call may change. */
  function TargetPkg(s: State, call: Call): Option<string> {
    match call
    case Load(_, _) => None
    case UnLoad(_) => None
    case Grant(identifier, _, _) => Some(identifier)
    case GrantRuntime(uid, _, _) =>
      var k := IndexOfUid(s.tasks, uid);
      if k < |s.tasks| then Some(s.tasks[k].pkgName) else None
    case UpdateFlags(identifier, _, _) => Some(identifier)
    case Save(identifier, _, _) => Some(identifier)
    case Delete(identifier) => Some(identifier)
  }

  /** A call touches no file but its package's, and a call that reports an error touches none. */
  lemma StepTouchesOneFile(config: Config, s: State, call: Call)
    ensures
      var out := Step(config, s, call);
      && (TargetPkg(s, call).Some? ==> SameElsewhere(s.files, out.state.files, TargetPkg(s, call).value))
      && (TargetPkg(s, call).None? || out.ret != SUCCESS ==> out.state.files == s.files)
  {
    hide Query, SaveList, Encode, Modified, Names, Changed, IndexOfUid, IndexOfPkg, IsValidFlags;
  }

  /** After a successful delete, or an install with an empty request, the package has no file, and
      loading it succeeds without adding a task. */
  lemma RemovedPackageLoadsNothing(config: Config, s: State, identifier: string, isUpdate: int, uid: int)
    requires PathFits(config, identifier) && uid >= 0 && config.maxPermissions >= 0
    requires isUpdate == UPDATE || isUpdate == FIRST_INSTALL
    ensures
      var deleted := Step(config, s, Delete(identifier));
      && deleted == Step(config, s, Save(identifier, [], isUpdate))
      && deleted.ret == SUCCESS && Query(config, deleted.state.files, identifier) == Failure(FILE_NOT_EXIST)
      && Step(config, deleted.state, Load(identifier, uid)) == Outcome(deleted.state, SUCCESS)
  {
  }

  // ---- the meaning of an install

  /** The value an entry inherits: 0 or 1 as the last old entry of that name is zero or not, or the
      default when there is none. */
  ghost predicate Inherits(stored: seq<PermissionSaved>, name: string, default: int, granted: int) {
    if forall j :: 0 <= j < |stored| ==> stored[j].name != name then granted == default
    else exists j :: 0 <= j < |stored| && stored[j].name == name && granted == Normal(stored[j]).granted
                     && forall k :: j < k < |stored| ==> stored[k].name != name
  }

  lemma NormalOfInherited(catalogue: seq<PermissionDef>, stored: seq<PermissionSaved>, name: string)
    ensures
      var default := DefaultGranted(catalogue, name);
      var g := Inherited(stored, |stored|, name, default);
      Inherits(stored, name, default, if g == 0 then 0 else 1)
  {
    InheritedMeaning(stored, |stored|, name, DefaultGranted(catalogue, name));
  }

  /** A successful install or upgrade stores exactly the first occurrences of the request, in order, with
      default flags and the inherited granted value, whatever was on file before. */
  lemma InstallMeaning(config: Config, s: State, identifier: string, requests: seq<PermissionTrans>, isUpdate: int)
    requires requests != [] && SaveStep(config, s, identifier, requests, isUpdate).ret == SUCCESS
    ensures
      var s' := SaveStep(config, s, identifier, requests, isUpdate).state;
      var stored := OldPermissions(config, s.files, identifier, isUpdate);
      var firsts := FirstOccurrences(requests);
      && identifier in s'.files && s'.files[identifier].Tree? && stored.Success?
      && var d := Decode(s'.files[identifier].root);
      && d.Success? && |d.value| == |firsts|
      && forall i :: 0 <= i < |firsts| ==>
           && d.value[i] == PermissionSaved(firsts[i].name, firsts[i].desc, d.value[i].granted, PMS_FLAG_DEFAULT)
           && Inherits(stored.value, firsts[i].name, if SystemGranted(config.catalogue, firsts[i].name) then 1 else 0, d.value[i].granted)
  {
    hide SaveStep, OldPermissions, Decode, FirstOccurrences, GoodList, Inherits, Inherited, DefaultGranted;
    InstallStores(config, s, identifier, requests, isUpdate);
    var stored, firsts := OldPermissions(config, s.files, identifier, isUpdate).value, FirstOccurrences(requests);
    forall i | 0 <= i < |firsts|
      ensures
        var e := NormalList(Merged(config.catalogue, stored, firsts))[i];
        && e == PermissionSaved(firsts[i].name, firsts[i].desc, e.granted, PMS_FLAG_DEFAULT)
        && Inherits(stored, firsts[i].name, if SystemGranted(config.catalogue, firsts[i].name) then 1 else 0, e.granted)
    {
      DefaultGrantedMeaning(config.catalogue, firsts[i].name);
      NormalOfInherited(config.catalogue, stored, firsts[i].name);
    }
  }

  /** Granted value an entry has after an install: what was on file if this is an upgrade and the name
      was there, otherwise what the catalogue says. */
  ghost function InstalledGranted(config: Config, files: Files, identifier: string, isUpdate: int, name: string): int {
    var q := Query(config, files, identifier);
    if isUpdate == UPDATE && q.Success? && IndexOfName(q.value, name) < |q.value| then GrantedOf(q.value, name)
    else if SystemGranted(config.catalogue, name) then 1 else 0
  }

  /** Over a good file, or none, an upgrade keeps exactly the granted values every check answers with. */
  lemma UpgradeKeepsGrants(config: Config, s: State, identifier: string, requests: seq<PermissionTrans>, isUpdate: int)
    requires GoodAt(config, s.files, identifier) && requests != []
    requires SaveStep(config, s, identifier, requests, isUpdate).ret == SUCCESS
    ensures
      var s' := SaveStep(config, s, identifier, requests, isUpdate).state;
      var firsts := FirstOccurrences(requests);
      && identifier in s'.files && s'.files[identifier].Tree?
      && Decode(s'.files[identifier].root) == Success(seq(|firsts|, i requires 0 <= i < |firsts| =>
           PermissionSaved(firsts[i].name, firsts[i].desc,
             InstalledGranted(config, s.files, identifier, isUpdate, firsts[i].name), PMS_FLAG_DEFAULT)))
  {
    hide SaveStep, Decode, FirstOccurrences, InstalledGranted, Inherited, DefaultGranted, GoodList, OldPermissions;
    InstallStores(config, s, identifier, requests, isUpdate);
    var stored, firsts := OldPermissions(config, s.files, identifier, isUpdate).value, FirstOccurrences(requests);
    forall i | 0 <= i < |firsts|
      ensures NormalList(Merged(config.catalogue, stored, firsts))[i].granted
              == InstalledGranted(config, s.files, identifier, isUpdate, firsts[i].name)
    {
      GoodFileInherits(config, s, identifier, requests, isUpdate, firsts[i].name);
    }
    assert NormalList(Merged(config.catalogue, stored, firsts)) == seq(|firsts|, i requires 0 <= i < |firsts| =>
      PermissionSaved(firsts[i].name, firsts[i].desc,
        InstalledGranted(config, s.files, identifier, isUpdate, firsts[i].name), PMS_FLAG_DEFAULT));
  }

  lemma GoodFileInherits(config: Config, s: State, identifier: string, requests: seq<PermissionTrans>, isUpdate: int, name: string)
    requires GoodAt(config, s.files, identifier)
    requires requests != [] && SaveStep(config, s, identifier, requests, isUpdate).ret == SUCCESS
    requires OldPermissions(config, s.files, identifier, isUpdate).Success?
    ensures
      var stored := OldPermissions(config, s.files, identifier, isUpdate).value;
      var g := Inherited(stored, |stored|, name, DefaultGranted(config.catalogue, name));
      (if g == 0 then 0 else 1) == InstalledGranted(config, s.files, identifier, isUpdate, name)
  {
    hide Decode, Encode;
    var stored := OldPermissions(config, s.files, identifier, isUpdate).value;
    DefaultGrantedMeaning(config.catalogue, name);
    InheritedIsLookup(stored, name, DefaultGranted(config.catalogue, name));
  }

  // ---- installs and deletes of a loaded package

  /** The requests have the names of the list, in its order. */
  ghost predicate SameNames(requests: seq<PermissionTrans>, ps: seq<PermissionSaved>) {
    |requests| == |ps| && forall i :: 0 <= i < |ps| ==> requests[i].name == ps[i].name
  }

  /** The merge would give this entry the granted value it has. */
  ghost predicate KeepsGranted(catalogue: seq<PermissionDef>, isUpdate: int, p: PermissionSaved) {
    if isUpdate == UPDATE then p.granted in {GRANTED, NOT_GRANTED} else p.granted == if SystemGranted(catalogue, p.name) then 1 else 0
  }

  /** Why a loaded package must not be installed or upgraded: nothing updates the task, so it matches the
      new file exactly when the request, duplicates removed, has its names in its order and, for a fresh
      install, every granted value is the default of the catalogue. */
  lemma InstallMatchesIff(config: Config, s: State, t: Task, requests: seq<PermissionTrans>, isUpdate: int)
    requires Matches(config, s.files, t) && requests != []
    requires SaveStep(config, s, t.pkgName, requests, isUpdate).ret == SUCCESS
    ensures
      var s' := SaveStep(config, s, t.pkgName, requests, isUpdate).state;
      Matches(config, s'.files, t)
      <==>
      && SameNames(FirstOccurrences(requests), t.perms)
      && forall i :: 0 <= i < |t.perms| ==> KeepsGranted(config.catalogue, isUpdate, t.perms[i])
  {
    hide Decode, Encode, GoodList, FirstOccurrences, OldPermissions, SaveStep, Merged, KeepsGranted;
    InstallStores(config, s, t.pkgName, requests, isUpdate);
    var firsts, stored := FirstOccurrences(requests), OldPermissions(config, s.files, t.pkgName, isUpdate).value;
    FirstOccurrencesDistinct(requests);
    OldOfMatching(config, s, t, requests, isUpdate);
    MergedMatchesIff(config.catalogue, stored, firsts, t.perms, isUpdate);
  }

  lemma OldOfMatching(config: Config, s: State, t: Task, requests: seq<PermissionTrans>, isUpdate: int)
    requires Matches(config, s.files, t) && requests != []
    requires SaveStep(config, s, t.pkgName, requests, isUpdate).ret == SUCCESS
    ensures
      var old' := OldPermissions(config, s.files, t.pkgName, isUpdate);
      && (isUpdate == UPDATE || isUpdate == FIRST_INSTALL) && old'.Success?
      && (if isUpdate == UPDATE then SameGrants(old'.value, t.perms) else old'.value == [])
  {
    hide Query, Merged;
  }

  lemma MergedMatchesIff(catalogue: seq<PermissionDef>, stored: seq<PermissionSaved>, firsts: seq<PermissionTrans>,
                         ts: seq<PermissionSaved>, isUpdate: int)
    requires forall i, j :: 0 <= i < j < |firsts| ==> firsts[i].name != firsts[j].name
    requires if isUpdate == UPDATE then SameGrants(stored, ts) else stored == []
    ensures
      SameGrants(NormalList(Merged(catalogue, stored, firsts)), ts)
      <==>
      SameNames(firsts, ts) && forall i :: 0 <= i < |ts| ==> KeepsGranted(catalogue, isUpdate, ts[i])
  {
    hide DefaultGranted, Inherited, KeepsGranted;
    var list := NormalList(Merged(catalogue, stored, firsts));
    assert |list| == |firsts| && forall i :: 0 <= i < |firsts| ==> list[i].name == firsts[i].name;
    if SameNames(firsts, ts) {
      forall i | 0 <= i < |ts| ensures list[i].granted == ts[i].granted <==> KeepsGranted(catalogue, isUpdate, ts[i]) {
        InheritedMatchesIff(catalogue, stored, ts, isUpdate, i);
      }
      assert forall i :: 0 <= i < |ts| ==> list[i].name == ts[i].name;
    }
  }

  lemma InheritedMatchesIff(catalogue: seq<PermissionDef>, stored: seq<PermissionSaved>, ts: seq<PermissionSaved>, isUpdate: int, i: nat)
    requires i < |ts| && DistinctNames(ts)
    requires if isUpdate == UPDATE then SameGrants(stored, ts) else stored == []
    ensures
      var g := Inherited(stored, |stored|, ts[i].name, DefaultGranted(catalogue, ts[i].name));
      (if g == 0 then 0 else 1) == ts[i].granted <==> KeepsGranted(catalogue, isUpdate, ts[i])
  {
    DefaultGrantedMeaning(catalogue, ts[i].name);
    if isUpdate == UPDATE {
      InheritedIsLookup(stored, ts[i].name, DefaultGranted(catalogue, ts[i].name));
      assert stored[i].name == ts[i].name;
    }
  }

  /** A successful delete, or an install with an empty request, never leaves a task matching. */
  lemma RemovalNeverMatches(config: Config, s: State, t: Task, call: Call)
    requires call == Delete(t.pkgName) || (call.Save? && call.identifier == t.pkgName && call.requests == [])
    requires Step(config, s, call).ret == SUCCESS
    ensures !Matches(config, Step(config, s, call).state.files, t)
  {
    hide Decode;
  }

  // ---- user decisions

  /** Granted value of a permission in the package file, if the file has it. */
  function StoredGrant(files: Files, identifier: string, name: string): Option<int> {
    if identifier !in files || !files[identifier].Tree? then None
    else match Decode(files[identifier].root)
      case Failure(_) => None
      case Success(ps) => if IndexOfName(ps, name) < |ps| then Some(GrantedOf(ps, name)) else None
  }

  /** The call does not itself decide about that permission: it is no grant or revoke of it, no delete
      or fresh install of the package, and no upgrade that drops the name. */
  ghost predicate Leaves(s: State, call: Call, identifier: string, name: string) {
    match call
    case Grant(id, n, _) => id != identifier || n != name
    case GrantRuntime(uid, n, _) =>
      var k := IndexOfUid(s.tasks, uid);
      k < |s.tasks| && s.tasks[k].pkgName == identifier ==> n != name
    case Save(id, requests, isUpdate) => id != identifier || (isUpdate != FIRST_INSTALL && NamedIn(requests, name))
    case Delete(id) => id != identifier
    case _ => true
  }

  ghost predicate LeavesRun(config: Config, s: State, calls: seq<Call>, identifier: string, name: string)
    decreases |calls|
  {
    calls == [] || (Leaves(s, calls[0], identifier, name)
                    && LeavesRun(config, Step(config, s, calls[0]).state, calls[1..], identifier, name))
  }

  lemma SyncLeavesDecision(config: Config, files: Files, id: string, n: string, c: Change, identifier: string, name: string)
    requires GoodAt(config, files, identifier)
    requires id != identifier || n != name || c.SetFlags?
    ensures StoredGrant(Synced(config, files, id, n, c), identifier, name) == StoredGrant(files, identifier, name)
  {
    hide Decode, Encode;
    var q := Query(config, files, id);
    if q.Success? && id == identifier {
      ChangeKeepsStorable(q.value, n, c);
      ChangeKeepsNames(q.value, n, c);
      RoundTrip(Changed(q.value, n, c));
    }
  }

  lemma UpgradeLeavesDecision(config: Config, s: State, identifier: string, requests: seq<PermissionTrans>, isUpdate: int, name: string)
    requires GoodAt(config, s.files, identifier) && isUpdate != FIRST_INSTALL && NamedIn(requests, name)
    requires StoredGrant(s.files, identifier, name).Some?
    ensures StoredGrant(SaveStep(config, s, identifier, requests, isUpdate).state.files, identifier, name)
            == StoredGrant(s.files, identifier, name)
  {
    hide Decode, Encode;
    var out := SaveStep(config, s, identifier, requests, isUpdate);
    FirstOccurrencesSize(requests);
    if out.ret == SUCCESS {
      UpgradeKeepsGrants(config, s, identifier, requests, isUpdate);
      FirstOccurrencesNames(requests, name);
      var ps := Decode(out.state.files[identifier].root).value;
      var firsts := FirstOccurrences(requests);
      var i :| 0 <= i < |firsts| && firsts[i].name == name;
      assert ps[i].name == name;
    } else {
      assert out.state == s;
    }
  }

  lemma StepLeavesDecision(config: Config, s: State, call: Call, identifier: string, name: string)
    requires GoodAt(config, s.files, identifier) && Leaves(s, call, identifier, name)
    requires StoredGrant(s.files, identifier, name).Some?
    ensures StoredGrant(Step(config, s, call).state.files, identifier, name) == StoredGrant(s.files, identifier, name)
  {
    hide Decode, Encode;
    match call
    case Grant(id, n, g) => SyncLeavesDecision(config, s.files, id, n, SetGranted(g), identifier, name);
    case GrantRuntime(uid, n, g) =>
      var k := IndexOfUid(s.tasks, uid);
      if k < |s.tasks| {
        SyncLeavesDecision(config, s.files, s.tasks[k].pkgName, n, SetGranted(g), identifier, name);
      }
    case UpdateFlags(id, n, flags) => SyncLeavesDecision(config, s.files, id, n, SetFlags(flags), identifier, name);
    case Save(id, requests, isUpdate) =>
      if id == identifier {
        UpgradeLeavesDecision(config, s, identifier, requests, isUpdate, name);
      }
    case _ =>
  }

  /** A permission's granted value stays as stored through any run of upgrades that keep the name and of
      other calls that do not decide about it, whatever those calls return. */
  lemma {:induction false} RunLeavesDecision(config: Config, s: State, calls: seq<Call>, identifier: string, name: string)
    requires GoodAt(config, s.files, identifier) && LeavesRun(config, s, calls, identifier, name)
    requires StoredGrant(s.files, identifier, name).Some?
    ensures StoredGrant(Run(config, s, calls).files, identifier, name) == StoredGrant(s.files, identifier, name)
    decreases |calls|
  {
    hide Step, GoodAt, StoredGrant, Leaves;
    if calls == [] {
    } else {
      StepKeepsGoodFile(config, s, calls[0], identifier);
      StepLeavesDecision(config, s, calls[0], identifier, name);
      RunLeavesDecision(config, Step(config, s, calls[0]).state, calls[1..], identifier, name);
    }
  }

  lemma GrantIsStored(config: Config, files: Files, identifier: string, name: string, g: Status)
    requires GoodAt(config, files, identifier) && StoredGrant(files, identifier, name).Some?
    requires Query(config, files, identifier).Success?
    ensures StoredGrant(Synced(config, files, identifier, name, SetGranted(g)), identifier, name) == Some(g)
  {
    hide Decode, Encode;
    var ps := Query(config, files, identifier).value;
    ChangeKeepsStorable(ps, name, SetGranted(g));
    ChangeKeepsNames(ps, name, SetGranted(g));
    RoundTrip(Changed(ps, name, SetGranted(g)));
  }

  /** The call grants or revokes that permission of the package, by its name or by a running task's uid. */
  ghost predicate Decides(s: State, call: Call, identifier: string, name: string, g: Status) {
    match call
    case Grant(id, n, granted) => id == identifier && n == name && granted == g
    case GrantRuntime(uid, n, granted) =>
      var k := IndexOfUid(s.tasks, uid);
      k < |s.tasks| && s.tasks[k].pkgName == identifier && n == name && granted == g
    case _ => false
  }

  /** A successful grant or revoke of a permission on file is what the file says, and still is after any
      run that does not decide about that permission again. */
  lemma DecisionSurvives(config: Config, s: State, call: Call, identifier: string, name: string, g: Status, calls: seq<Call>)
    requires GoodAt(config, s.files, identifier) && StoredGrant(s.files, identifier, name).Some?
    requires Decides(s, call, identifier, name, g) && Step(config, s, call).ret == SUCCESS
    requires LeavesRun(config, Step(config, s, call).state, calls, identifier, name)
    ensures StoredGrant(Run(config, Step(config, s, call).state, calls).files, identifier, name) == Some(g)
  {
    hide Decode, Encode, GoodAt, StoredGrant, Synced, Query, LeavesRun, Run;
    GrantIsStored(config, s.files, identifier, name, g);
    StepKeepsGoodFile(config, s, call, identifier);
    RunLeavesDecision(config, Step(config, s, call).state, calls, identifier, name);
  }

  /** Repeating an upgrade changes nothing, whatever the file looked like before the first one. */
  lemma UpgradeIsIdempotent(config: Config, s: State, identifier: string, requests: seq<PermissionTrans>)
    ensures
      var s1 := SaveStep(config, s, identifier, requests, UPDATE).state;
      SaveStep(config, s1, identifier, requests, UPDATE).state == s1
  {
    hide Decode, Encode;
    var out := SaveStep(config, s, identifier, requests, UPDATE);
    var firsts := FirstOccurrences(requests);
    FirstOccurrencesSize(requests);
    if out.ret == SUCCESS && requests != [] {
      var merged := Merged(config.catalogue, OldPermissions(config, s.files, identifier, UPDATE).value, firsts);
      assert out.state.files == Written(s.files, identifier, merged);
      ReadBack(merged);
      FirstOccurrencesDistinct(requests);
      MergedAgainEncodesAlike(config.catalogue, merged, firsts);
      var again := Merged(config.catalogue, NormalList(merged), firsts);
      assert Written(out.state.files, identifier, again) == out.state.files;
    }
  }

  lemma MergedAgainEncodesAlike(catalogue: seq<PermissionDef>, merged: seq<PermissionSaved>, firsts: seq<PermissionTrans>)
    requires |merged| == |firsts| && DistinctNames(merged)
    requires forall i :: 0 <= i < |firsts| ==>
      merged[i].name == firsts[i].name && merged[i].desc == firsts[i].desc && merged[i].flags == PMS_FLAG_DEFAULT
    ensures Encode(Merged(catalogue, NormalList(merged), firsts)) == Encode(merged)
  {
    var normal := NormalList(merged);
    var again := Merged(catalogue, normal, firsts);
    forall i | 0 <= i < |firsts| ensures EncodeEntry(again[i]) == EncodeEntry(merged[i]) {
      InheritedIsLookup(normal, firsts[i].name, DefaultGranted(catalogue, firsts[i].name));
      assert normal[i].name == firsts[i].name;
    }
    assert EncodeEntries(again) == EncodeEntries(merged);
  }
}
