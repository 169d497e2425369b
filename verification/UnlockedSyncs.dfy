/** What calls that overlap on one package can do to its file, with no discipline assumed: its shape under
    any number of grants, revokes and flags updates, the store invariant under all calls, and when a
    deleted file stays deleted. Module LostUpdates says which of two overlapping updates survive. */
module UnlockedSyncs {
  import opened PmsTypes
  import opened PermissionCodec
  import opened PmsModel
  import opened FileSync
  import opened Store
  import opened Interleaving
  import Installation

  ghost predicate ValidFlags(ps: seq<PermissionSaved>) {
    forall i :: 0 <= i < |ps| ==> GoodFlags(ps[i].flags)
  }

  /** Same names and descriptions as `shape`, in order; when asked for, valid flags, and granted 0 or 1. */
  ghost predicate InShape(ps: seq<PermissionSaved>, shape: seq<PermissionSaved>, flags: bool, bits: bool) {
    SameShape(shape, ps) && TextsFit(ps) && (flags ==> ValidFlags(ps)) && (bits ==> AllStorable(ps))
  }

  /** The action neither installs nor deletes the package, and does not damage its file. */
  ghost predicate Keeps(s: System, action: Action, pkg: string) {
    match action
    case BeginSave(_, identifier, _, _) => identifier != pkg
    case DoDelete(identifier) => identifier != pkg
    case FailFile(c, damage) => c in s.calls && s.calls[c].pkg == pkg ==> damage == Untouched
    case _ => true
  }

  ghost predicate KeepsRun(config: Config, s: System, actions: seq<Action>, pkg: string)
    decreases |actions|
  {
    actions == [] || (Keeps(s, actions[0], pkg) && KeepsRun(config, Next(config, s, actions[0]), actions[1..], pkg))
  }

  /** A list some call is about to write to the package's file has the shape too. */
  ghost predicate CallInShape(a: Activity, pkg: string, shape: seq<PermissionSaved>, flags: bool, bits: bool) {
    a.pkg == pkg ==>
      match a
      case SyncPending(_, _, change) => change.SetFlags? ==> GoodFlags(change.flags)
      case SyncRead(_, _, _, list) => InShape(list, shape, flags, bits)
      case LoadHeld(_, _, _) => true
      case SaveRead(_, _) => false
  }

  ghost predicate ShapeInv(config: Config, s: System, pkg: string, shape: seq<PermissionSaved>, flags: bool, bits: bool) {
    var q := Query(config, s.files, pkg);
    && q.Success? && InShape(q.value, shape, flags, bits)
    && forall c :: c in s.calls ==> CallInShape(s.calls[c], pkg, shape, flags, bits)
  }

  lemma ChangeKeepsInShape(ps: seq<PermissionSaved>, shape: seq<PermissionSaved>, flags: bool, bits: bool, permName: string, c: Change)
    requires InShape(ps, shape, flags, bits) && (c.SetFlags? ==> GoodFlags(c.flags))
    ensures InShape(Changed(ps, permName, c), shape, flags, bits)
  {
    ChangeKeepsNames(ps, permName, c);
  }

  lemma NormalKeepsInShape(ps: seq<PermissionSaved>, shape: seq<PermissionSaved>, flags: bool, bits: bool)
    requires InShape(ps, shape, flags, bits)
    ensures InShape(NormalList(ps), shape, flags, bits)
  {
  }

  lemma ReadKeepsShape(config: Config, s: System, c: nat, pkg: string, shape: seq<PermissionSaved>, flags: bool, bits: bool)
    requires ShapeInv(config, s, pkg, shape, flags, bits)
    ensures ShapeInv(config, DoReadFile(config, s, c), pkg, shape, flags, bits)
  {
    hide Query, InShape, Changed;
    if c in s.calls && s.calls[c].SyncPending? && s.calls[c].pkg == pkg {
      assert CallInShape(s.calls[c], pkg, shape, flags, bits);
      ChangeKeepsInShape(Query(config, s.files, pkg).value, shape, flags, bits, s.calls[c].permName, s.calls[c].change);
    }
  }

  lemma WriteKeepsShape(config: Config, s: System, c: nat, pkg: string, shape: seq<PermissionSaved>, flags: bool, bits: bool)
    requires ShapeInv(config, s, pkg, shape, flags, bits)
    ensures ShapeInv(config, DoWriteFile(s, c), pkg, shape, flags, bits)
  {
    hide Query, Encode;
    var s' := DoWriteFile(s, c);
    if s' != s {
      var a := s.calls[c];
      assert CallInShape(a, pkg, shape, flags, bits);
      if a.pkg == pkg {
        ReadAfterAnyWrite(config, s.files, pkg, a.list);
        NormalKeepsInShape(a.list, shape, flags, bits);
      } else {
        SameFileSameQuery(config, s.files, s'.files, a.pkg, pkg);
      }
    }
  }

  lemma FailKeepsShape(config: Config, s: System, c: nat, damage: Damage, pkg: string, shape: seq<PermissionSaved>, flags: bool, bits: bool)
    requires ShapeInv(config, s, pkg, shape, flags, bits) && Keeps(s, FailFile(c, damage), pkg)
    ensures ShapeInv(config, DoFailFile(s, c, damage), pkg, shape, flags, bits)
  {
    hide Query, InShape;
    var s' := DoFailFile(s, c, damage);
    if s' != s && s.calls[c].pkg != pkg {
      SameFileSameQuery(config, s.files, s'.files, s.calls[c].pkg, pkg);
    }
  }

  lemma BeginSaveKeepsShape(config: Config, s: System, c: nat, identifier: string, requests: seq<PermissionTrans>,
                            isUpdate: int, pkg: string, shape: seq<PermissionSaved>, flags: bool, bits: bool)
    requires ShapeInv(config, s, pkg, shape, flags, bits) && identifier != pkg
    ensures ShapeInv(config, DoBeginSave(config, s, c, identifier, requests, isUpdate), pkg, shape, flags, bits)
  {
    hide Query, InShape, SaveList;
    SameFileSameQuery(config, s.files, s.files - {identifier}, identifier, pkg);
  }

  lemma BeginSyncKeepsShape(config: Config, s: System, action: Action, pkg: string, shape: seq<PermissionSaved>, flags: bool, bits: bool)
    requires ShapeInv(config, s, pkg, shape, flags, bits)
    requires action.BeginGrant? || action.BeginRuntime? || action.BeginFlags?
    ensures ShapeInv(config, Next(config, s, action), pkg, shape, flags, bits)
  {
    hide Query, InShape, Modified, Names;
  }

  lemma NextKeepsShape(config: Config, s: System, action: Action, pkg: string, shape: seq<PermissionSaved>, flags: bool, bits: bool)
    requires ShapeInv(config, s, pkg, shape, flags, bits) && Keeps(s, action, pkg)
    ensures ShapeInv(config, Next(config, s, action), pkg, shape, flags, bits)
  {
    hide Query, InShape, DoReadFile, DoWriteFile, DoFailFile, DoBeginSave, DoBeginGrant, DoBeginRuntime, DoBeginFlags;
    match action
    case ReadFile(c) => ReadKeepsShape(config, s, c, pkg, shape, flags, bits);
    case WriteFile(c) => WriteKeepsShape(config, s, c, pkg, shape, flags, bits);
    case FailFile(c, damage) => FailKeepsShape(config, s, c, damage, pkg, shape, flags, bits);
    case BeginSave(c, identifier, requests, isUpdate) =>
      BeginSaveKeepsShape(config, s, c, identifier, requests, isUpdate, pkg, shape, flags, bits);
    case DoDelete(identifier) => SameFileSameQuery(config, s.files, s.files - {identifier}, identifier, pkg);
    case BeginGrant(_, _, _, _) => BeginSyncKeepsShape(config, s, action, pkg, shape, flags, bits);
    case BeginRuntime(_, _, _, _) => BeginSyncKeepsShape(config, s, action, pkg, shape, flags, bits);
    case BeginFlags(_, _, _, _) => BeginSyncKeepsShape(config, s, action, pkg, shape, flags, bits);
    case _ =>
  }

  lemma {:induction false} RunKeepsShape(config: Config, s: System, actions: seq<Action>, pkg: string, shape: seq<PermissionSaved>, flags: bool, bits: bool)
    requires ShapeInv(config, s, pkg, shape, flags, bits) && KeepsRun(config, s, actions, pkg)
    ensures ShapeInv(config, Execute(config, s, actions), pkg, shape, flags, bits)
    decreases |actions|
  {
    hide ShapeInv, Keeps, Next;
    if actions == [] {
    } else {
      NextKeepsShape(config, s, actions[0], pkg, shape, flags, bits);
      RunKeepsShape(config, Next(config, s, actions[0]), actions[1..], pkg, shape, flags, bits);
    }
  }

  /** However file updates of a package overlap, its file keeps reading as a list with the names and
      descriptions it started with, in the same order. If its flags were all valid, or its granted values
      all 0 or 1, they stay so. */
  lemma OverlappingSyncsKeepShape(config: Config, s: System, actions: seq<Action>, pkg: string)
    requires Quiet(s) && KeepsRun(config, s, actions, pkg) && Query(config, s.files, pkg).Success?
    ensures
      var ps := Query(config, s.files, pkg).value;
      var q := Query(config, Execute(config, s, actions).files, pkg);
      && q.Success? && SameShape(ps, q.value)
      && (ValidFlags(ps) ==> ValidFlags(q.value))
      && (AllStorable(ps) ==> AllStorable(q.value))
  {
    hide Query, Execute, KeepsRun;
    var ps := Query(config, s.files, pkg).value;
    QueriedTextsFit(config, s.files, pkg);
    RunKeepsShape(config, s, actions, pkg, ps, ValidFlags(ps), AllStorable(ps));
  }

  // ---- the store invariant under any interleaving

  /** The file is good, or a failed write left it unreadable, which `garbled` allows. */
  ghost predicate FileOk(config: Config, file: FileData, garbled: bool) {
    GoodFile(config, file) || (garbled && file.Garbage?)
  }

  ghost predicate FilesOk(config: Config, files: Files, garbled: bool) {
    forall id :: id in files ==> FileOk(config, files[id], garbled)
  }

  /** What a call holds between its steps may be written at any time, however the file has changed since. */
  ghost predicate HoldsGood(config: Config, a: Activity) {
    match a
    case SyncPending(_, _, change) => change.SetFlags? ==> GoodFlags(change.flags)
    case SyncRead(_, _, _, list) => GoodList(config, list)
    case LoadHeld(_, _, _) => true
    case SaveRead(_, list) => GoodList(config, NormalList(list)) && TextsFit(list)
  }

  ghost predicate StoreInv(config: Config, s: System, garbled: bool) {
    FilesOk(config, s.files, garbled) && forall c :: c in s.calls ==> HoldsGood(config, s.calls[c])
  }

  lemma GoodListIsNormal(config: Config, ps: seq<PermissionSaved>)
    requires GoodList(config, ps)
    ensures NormalList(ps) == ps && TextsFit(ps)
  {
    StorableIsNormal(ps);
  }

  lemma NormalGoodIsGoodFile(config: Config, ps: seq<PermissionSaved>)
    requires GoodList(config, NormalList(ps)) && TextsFit(ps)
    ensures GoodFile(config, Tree(Encode(ps)))
  {
    hide Decode, Encode, GoodList;
    ReadBack(ps);
  }

  lemma WriteKeepsStoreInv(config: Config, s: System, c: nat, garbled: bool)
    requires StoreInv(config, s, garbled)
    ensures StoreInv(config, DoWriteFile(s, c), garbled)
  {
    hide GoodFile, GoodList, Encode, TextsFit, NormalList;
    var s' := DoWriteFile(s, c);
    if s' != s {
      var a := s.calls[c];
      assert HoldsGood(config, a);
      if a.SyncRead? {
        GoodListIsNormal(config, a.list);
      }
      NormalGoodIsGoodFile(config, a.list);
    }
  }

  lemma ReadKeepsStoreInv(config: Config, s: System, c: nat, garbled: bool)
    requires StoreInv(config, s, garbled)
    ensures StoreInv(config, DoReadFile(config, s, c), garbled)
  {
    hide Decode, Changed, GoodList;
    if c in s.calls && s.calls[c].SyncPending? && Query(config, s.files, s.calls[c].pkg).Success? {
      var a := s.calls[c];
      assert HoldsGood(config, a) && FileOk(config, s.files[a.pkg], garbled);
      ChangeKeepsGood(config, Query(config, s.files, a.pkg).value, a.permName, a.change);
    }
  }

  lemma MergedTextsFit(catalogue: seq<PermissionDef>, stored: seq<PermissionSaved>, firsts: seq<PermissionTrans>)
    requires forall i :: 0 <= i < |firsts| ==> !Installation.TooLong(firsts[i])
    ensures TextsFit(Installation.Merged(catalogue, stored, firsts))
  {
  }

  lemma SavedIsGood(config: Config, files: Files, identifier: string, requests: seq<PermissionTrans>, isUpdate: int)
    requires SaveList(config, files, identifier, requests, isUpdate).Success?
    ensures
      var list := SaveList(config, files, identifier, requests, isUpdate).value;
      GoodList(config, NormalList(list)) && TextsFit(list)
  {
    hide GoodList, OldPermissions, Installation.Merged, Installation.FirstOccurrences, TextsFit;
    var stored, firsts := OldPermissions(config, files, identifier, isUpdate).value, Installation.FirstOccurrences(requests);
    assert forall i :: 0 <= i < |firsts| ==> !Installation.TooLong(firsts[i]);
    Installation.FirstOccurrencesSize(requests);
    NormalMergedIsGood(config, stored, requests);
    MergedTextsFit(config.catalogue, stored, firsts);
  }

  lemma BeginSaveKeepsStoreInv(config: Config, s: System, c: nat, identifier: string, requests: seq<PermissionTrans>,
                               isUpdate: int, garbled: bool)
    requires StoreInv(config, s, garbled)
    ensures StoreInv(config, DoBeginSave(config, s, c, identifier, requests, isUpdate), garbled)
  {
    hide FileOk, GoodList, SaveList, TextsFit;
    var list := SaveList(config, s.files, identifier, requests, isUpdate);
    if list.Success? {
      SavedIsGood(config, s.files, identifier, requests, isUpdate);
    }
  }

  lemma BeginSyncKeepsStoreInv(config: Config, s: System, action: Action, garbled: bool)
    requires StoreInv(config, s, garbled)
    requires action.BeginGrant? || action.BeginRuntime? || action.BeginFlags?
    ensures StoreInv(config, Next(config, s, action), garbled)
  {
    hide FileOk, GoodList, Modified, Names;
  }

  lemma NextKeepsStoreInv(config: Config, s: System, action: Action, garbled: bool)
    requires StoreInv(config, s, garbled)
    requires action.FailFile? && action.damage == Garbled ==> garbled
    ensures StoreInv(config, Next(config, s, action), garbled)
  {
    match action
    case ReadFile(c) => ReadKeepsStoreInv(config, s, c, garbled);
    case WriteFile(c) => WriteKeepsStoreInv(config, s, c, garbled);
    case BeginSave(c, identifier, requests, isUpdate) =>
      BeginSaveKeepsStoreInv(config, s, c, identifier, requests, isUpdate, garbled);
    case BeginGrant(_, _, _, _) => BeginSyncKeepsStoreInv(config, s, action, garbled);
    case BeginRuntime(_, _, _, _) => BeginSyncKeepsStoreInv(config, s, action, garbled);
    case BeginFlags(_, _, _, _) => BeginSyncKeepsStoreInv(config, s, action, garbled);
    case _ => hide GoodFile, HoldsGood, Query;
  }

  /** No failed write of the run leaves a file unreadable. */
  ghost predicate NeverGarbled(actions: seq<Action>) {
    forall i :: 0 <= i < |actions| && actions[i].FailFile? ==> actions[i].damage != Garbled
  }

  lemma {:induction false} RunKeepsStoreInv(config: Config, s: System, actions: seq<Action>, garbled: bool)
    requires StoreInv(config, s, garbled) && (NeverGarbled(actions) || garbled)
    ensures StoreInv(config, Execute(config, s, actions), garbled)
    decreases |actions|
  {
    hide StoreInv, Next;
    if actions == [] {
    } else {
      NextKeepsStoreInv(config, s, actions[0], garbled);
      RunKeepsStoreInv(config, Next(config, s, actions[0]), actions[1..], garbled);
    }
  }

  /** The store invariant over every interleaving, with no discipline at all: installs, deletes and file
      updates of one package may overlap, writes may come late and recreate a deleted file, and any access
      may fail. From a good store every file that can be read is good, and every file is good as long as
      no failed write leaves text that does not parse. */
  lemma EveryInterleavingKeepsGoodStore(config: Config, files: Files, actions: seq<Action>)
    requires GoodStore(config, files)
    ensures
      var files' := Execute(config, Start(files), actions).files;
      && (forall id :: id in files' ==> GoodFile(config, files'[id]) || files'[id].Garbage?)
      && (NeverGarbled(actions) ==> GoodStore(config, files'))
  {
    hide GoodFile, Execute;
    RunKeepsStoreInv(config, Start(files), actions, true);
    if NeverGarbled(actions) {
      RunKeepsStoreInv(config, Start(files), actions, false);
    }
  }

  // ---- deleted files

  /** A call has read, or put together, a list it will write to the package's file. */
  ghost predicate WriteIsDue(s: System, pkg: string) {
    exists c :: c in s.calls && s.calls[c].pkg == pkg && (s.calls[c].SyncRead? || s.calls[c].SaveRead?)
  }

  ghost predicate NoInstall(actions: seq<Action>, pkg: string) {
    forall i :: 0 <= i < |actions| && actions[i].BeginSave? ==> actions[i].identifier != pkg
  }

  lemma NextKeepsDeleted(config: Config, s: System, action: Action, pkg: string)
    requires pkg !in s.files && !WriteIsDue(s, pkg) && (action.BeginSave? ==> action.identifier != pkg)
    ensures pkg !in Next(config, s, action).files && !WriteIsDue(Next(config, s, action), pkg)
  {
    hide Changed, SaveList, Modified, Names, IsValidFlags, IndexOfPkg, IndexOfUid, Encode, Decode;
  }

  lemma {:induction false} RunKeepsDeleted(config: Config, s: System, actions: seq<Action>, pkg: string)
    requires pkg !in s.files && !WriteIsDue(s, pkg) && NoInstall(actions, pkg)
    ensures pkg !in Execute(config, s, actions).files
    decreases |actions|
  {
    hide WriteIsDue, Next;
    if actions == [] {
    } else {
      NextKeepsDeleted(config, s, actions[0], pkg);
      RunKeepsDeleted(config, Next(config, s, actions[0]), actions[1..], pkg);
    }
  }

  /** A missing file stays missing, whatever else the callers do short of installing the package, if and
      only if no write to it is due: a file update or install under way recreates a deleted file. */
  lemma DeletedStaysDeletedIff(config: Config, s: System, pkg: string)
    requires pkg !in s.files
    ensures !WriteIsDue(s, pkg) <==> forall actions :: NoInstall(actions, pkg) ==> pkg !in Execute(config, s, actions).files
  {
    hide Next, Execute;
    if WriteIsDue(s, pkg) {
      var c :| c in s.calls && s.calls[c].pkg == pkg && (s.calls[c].SyncRead? || s.calls[c].SaveRead?);
      var late := [WriteFile(c)];
      LateWrite(config, s, c);
      assert NoInstall(late, pkg) && pkg in Execute(config, s, late).files;
    } else {
      forall actions | NoInstall(actions, pkg) ensures pkg !in Execute(config, s, actions).files {
        RunKeepsDeleted(config, s, actions, pkg);
      }
    }
  }

  lemma LateWrite(config: Config, s: System, c: nat)
    requires c in s.calls && (s.calls[c].SyncRead? || s.calls[c].SaveRead?)
    ensures s.calls[c].pkg in Execute(config, s, [WriteFile(c)]).files
  {
    var late := [WriteFile(c)];
    assert late[1..] == [];
    assert Execute(config, s, late) == Execute(config, Next(config, s, late[0]), []);
  }
}
