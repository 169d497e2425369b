/** The permission manager service: the task list, the mutex and the permission files behind its public
    calls. Every call keeps Valid(), returns with the mutex released, and is proved against the step
    function of PmsModel: its exact effect when it succeeds, what a failure may leave, and the exact
    outcome when allocations and file accesses do not fail. */
module Pms {
  import opened Common
  import opened PmsTypes
  import opened PermissionCodec
  import opened Installation
  import opened PmsModel
  import opened HalModel
  import opened TaskList
  import opened PermissionFile
  import opened Installer
  import Coherence

  /** Changes the first entry of that name in the array; reports whether the field had another value. */
  method ChangeEntry(perms: array?<PermissionSaved>, permNum: int, permName: string, c: Change, ghost ps: seq<PermissionSaved>)
    returns (isSave: bool)
    requires Lists(perms, permNum, ps)
    modifies perms
    ensures Lists(perms, permNum, Changed(ps, permName, c))
    ensures isSave <==> Changed(ps, permName, c) != ps
  {
    hide IndexOfName;
    isSave := false;
    var i := 0;
    while i < permNum
      invariant 0 <= i <= permNum && Lists(perms, permNum, ps)
      invariant forall j :: 0 <= j < i ==> ps[j].name != permName
    {
      if perms[i].name == permName {
        isSave := match c case SetGranted(g) => perms[i].granted != g case SetFlags(f) => perms[i].flags != f;
        perms[i] := Apply(perms[i], c);
        assert perms[..] == ps[i := Apply(ps[i], c)];
        assert isSave ==> perms[..][i] != ps[i];
        return;
      }
      i := i + 1;
    }
  }

  /** OnPermissionFileSync and OnPermissionFlagsFileSync, which differ in the field they overwrite: reads
      the file, changes the first entry of that name, and writes only if the field had another value. */
  method FileSync(hal: Hal, identifier: string, permName: string, c: Change) returns (ret: int)
    requires FilesFit(hal.files)
    modifies hal`live, hal`files
    ensures hal.live == old(hal.live) && FilesFit(hal.files)
    ensures ret == SUCCESS ==>
      Query(hal.config, old(hal.files), identifier).Success?
      && hal.files == Synced(hal.config, old(hal.files), identifier, permName, c)
    ensures ret != SUCCESS ==> Spoiled(old(hal.files), hal.files, identifier)
    ensures hal.reliable ==>
      match Query(hal.config, old(hal.files), identifier)
      case Failure(e) => ret == e && hal.files == old(hal.files)
      case Success(_) => ret == SUCCESS
  {
    hide Query, FilesFit, Changed, Encode;
    var permissions, permNum;
    ret, permissions, permNum := QueryPermission(hal, identifier);
    if ret != SUCCESS {
      return ret;
    }
    ghost var ps := Query(hal.config, hal.files, identifier).value;
    ghost var qs := Changed(ps, permName, c);
    QueriedFits(hal.config, hal.files, identifier);
    PathFitsIfQueried(hal.config, hal.files, identifier);
    var isSave := ChangeEntry(permissions, permNum, permName, c, ps);
    var retCode := SUCCESS;
    if isSave {
      assert permissions[..permNum] == qs;
      retCode := SavePermissions(hal, identifier, permissions, permNum);
      if retCode == SUCCESS {
        WrittenFits(old(hal.files), identifier, qs);
      } else {
        SpoiledFits(old(hal.files), hal.files, identifier);
      }
    }
    hal.Free(permissions);
    return retCode;
  }

  lemma PathFitsIfQueried(config: Config, files: Files, identifier: string)
    requires Query(config, files, identifier).Success?
    ensures PathFits(config, identifier)
  {
  }

  class Pms {
    const hal: Hal
    const list: TList

    ghost predicate Valid()
      reads this, hal, list, list.Repr
    {
      && list.Valid() && hal !in list.Repr && list.Repr <= hal.live
      && !hal.locked && OneTaskPerUid(list.tasks)
      && FilesFit(hal.files) && hal.config.maxPermissions <= MAX_ENTRIES
    }

    /** The service's value. */
    ghost function Now(): State
      reads hal, list
    {
      State(list.tasks, hal.files)
    }

    /** Blocks allocated but not owned by the task list: buffers handed to callers. */
    ghost function Lent(): set<object>
      reads hal, list
    {
      hal.live - list.Repr
    }

    /** Nothing leaks: what is allocated is one block per task, one per permission array of a task, and
        the buffers lent to callers. */
    lemma BlocksAreAccountedFor()
      requires Valid()
      ensures |hal.live| == BlockCount(list.tasks) + |Lent()|
    {
      hide FilesFit, Segment;
      SegmentBlockCount(list.head, null, list.tasks, list.Repr);
      assert hal.live == list.Repr + Lent();
    }

    constructor (hal: Hal)
      requires !hal.locked && FilesFit(hal.files) && hal.config.maxPermissions <= MAX_ENTRIES
      ensures Valid() && this.hal == hal && Now() == State([], hal.files) && Lent() == hal.live
      ensures fresh(list)
    {
      this.hal := hal;
      list := new TList();
    }

    method LoadPermissions(identifier: string, uid: int) returns (ret: int)
      requires Valid()
      modifies hal`live, hal`locked, list
      ensures Valid() && fresh(list.Repr - old(list.Repr)) && Lent() == old(Lent())
      ensures Now() == if ret == SUCCESS then LoadStep(hal.config, old(Now()), identifier, uid).state else old(Now())
      ensures hal.reliable ==> ret == LoadStep(hal.config, old(Now()), identifier, uid).ret
    {
      hide Query, IndexOfUid, Segment, IsAt, FilesFit, OneTaskPerUid;
      Coherence.StepKeepsUnique(hal.config, Now(), Load(identifier, uid));
      if uid < 0 {
        return INVALID_PARAMS;
      }
      hal.MutexLock();
      var task := list.GetTaskWithUid(uid);
      ghost var k := IndexOfUid(list.tasks, uid);
      if task != null {
        FoundIsInRange(task, k);
        hal.MutexUnlock();
        return SUCCESS;
      }
      var permissions, permNum;
      ret, permissions, permNum := QueryPermission(hal, identifier);
      if ret == FILE_NOT_EXIST {
        hal.MutexUnlock();
        return SUCCESS;
      }
      if ret != SUCCESS {
        hal.MutexUnlock();
        return ret;
      }
      ret := AddLoaded(identifier, uid, permissions, permNum, Query(hal.config, hal.files, identifier).value);
      hal.MutexUnlock();
    }

    /** The last part of LoadPermissions: a new node takes over the permission array, or both are freed. */
    method AddLoaded(identifier: string, uid: int, permissions: array?<PermissionSaved>, permNum: int, ghost ps: seq<PermissionSaved>)
      returns (ret: int)
      requires list.Valid() && hal !in list.Repr && list.Repr !! Given(permissions)
      requires list.Repr + Given(permissions) <= hal.live && Lists(permissions, permNum, ps)
      modifies hal`live, list
      ensures list.Valid() && hal !in list.Repr && list.Repr <= hal.live
      ensures fresh(list.Repr - old(list.Repr) - Given(permissions))
      ensures hal.live - list.Repr == old(hal.live) - old(list.Repr) - Given(permissions)
      ensures ret == SUCCESS || ret == MALLOC_FAIL || ret == COPY_ERROR
      ensures ret == SUCCESS ==> |identifier| < PKG_NAME_LEN && list.tasks == [Task(uid, identifier, ps)] + old(list.tasks)
      ensures ret != SUCCESS ==> list.tasks == old(list.tasks)
      ensures hal.reliable ==> ret == if |identifier| >= PKG_NAME_LEN then COPY_ERROR else SUCCESS
    {
      hide Segment;
      var node := new TNode(uid, identifier, permissions, permNum);
      var ok := hal.Malloc(node);
      if !ok {
        hal.Free(permissions);
        return MALLOC_FAIL;
      }
      if |identifier| >= PKG_NAME_LEN {
        hal.Free(permissions);
        hal.Free(node);
        return COPY_ERROR;
      }
      list.AddTask(node, Task(uid, identifier, ps));
      return SUCCESS;
    }

    lemma FoundIsInRange(node: TNode?, k: nat)
      requires list.Valid() && list.Found(node, k)
      ensures node != null <==> k < |list.tasks|
      ensures node != null ==> node in list.Repr && node.Holds(list.tasks[k]) && node.Blocks() <= list.Repr
    {
    }

    method UnLoadPermissions(uid: int) returns (ret: int)
      requires Valid()
      modifies hal`live, hal`locked, list, list.Repr
      ensures Valid() && list.Repr <= old(list.Repr) && Lent() == old(Lent())
      ensures ret == SUCCESS && Now() == Step(hal.config, old(Now()), UnLoad(uid)).state
    {
      hide FilesFit, WithoutUid, OneTaskPerUid;
      Coherence.StepKeepsUnique(hal.config, Now(), UnLoad(uid));
      hal.MutexLock();
      list.DeleteTask(hal, uid);
      hal.MutexUnlock();
      return SUCCESS;
    }

    method CheckPermissionStat(uid: int, permissionName: string) returns (ret: int)
      requires Valid()
      modifies hal`locked
      ensures Valid() && Now() == old(Now()) && Lent() == old(Lent())
      ensures ret == PmsModel.CheckPermissionStat(Now(), uid, permissionName)
    {
      hide FilesFit, GrantedIn;
      if uid < 0 {
        return INVALID_PARAMS;
      }
      hal.MutexLock();
      ret := list.PermissionIsGranted(uid, permissionName);
      hal.MutexUnlock();
    }

    /** GrantPermission and RevokePermission. The task is changed under the mutex; the file is updated
        after the mutex is released. */
    method ChangePermission(identifier: string, permName: string, granted: Status) returns (ret: int)
      requires Valid()
      modifies hal`live, hal`locked, hal`files, list, list.Repr
      ensures Valid() && list.Repr == old(list.Repr) && Lent() == old(Lent())
      ensures list.tasks == GrantStep(hal.config, old(Now()), identifier, permName, granted).state.tasks
      ensures ret == SUCCESS ==> Now() == GrantStep(hal.config, old(Now()), identifier, permName, granted).state
      ensures ret != SUCCESS ==> Spoiled(old(hal.files), hal.files, identifier)
      ensures hal.reliable ==> Outcome(Now(), ret) == GrantStep(hal.config, old(Now()), identifier, permName, granted)
    {
      hide Query, IndexOfPkg, Segment, IsAt, FilesFit, Synced, Modified, OneTaskPerUid;
      Coherence.StepKeepsUnique(hal.config, Now(), Grant(identifier, permName, granted));
      ret := SUCCESS;
      hal.MutexLock();
      var node := list.GetTaskWithPkgName(identifier);
      ghost var k := IndexOfPkg(list.tasks, identifier);
      FoundIsInRange(node, k);
      if node != null {
        ret := list.ModifyPermission(node, k, permName, granted);
      }
      hal.MutexUnlock();
      if ret != 0 {
        return PERM_NOT_EXIST;
      }
      ret := FileSync(hal, identifier, permName, SetGranted(granted));
    }

    /** GrantRuntimePermission and RevokeRuntimePermission. */
    method ChangeRuntimePermission(uid: int, permName: string, granted: Status) returns (ret: int)
      requires Valid()
      modifies hal`live, hal`locked, hal`files, list, list.Repr
      ensures Valid() && list.Repr == old(list.Repr) && Lent() == old(Lent())
      ensures list.tasks == GrantRuntimeStep(hal.config, old(Now()), uid, permName, granted).state.tasks
      ensures ret == SUCCESS ==> Now() == GrantRuntimeStep(hal.config, old(Now()), uid, permName, granted).state
      ensures ret != SUCCESS ==>
        var k := IndexOfUid(old(list.tasks), uid);
        if k < |old(list.tasks)| then Spoiled(old(hal.files), hal.files, old(list.tasks)[k].pkgName)
        else hal.files == old(hal.files)
      ensures hal.reliable ==> Outcome(Now(), ret) == GrantRuntimeStep(hal.config, old(Now()), uid, permName, granted)
    {
      hide Query, IndexOfUid, Segment, IsAt, FilesFit, Synced, Modified, OneTaskPerUid;
      Coherence.StepKeepsUnique(hal.config, Now(), GrantRuntime(uid, permName, granted));
      hal.MutexLock();
      var node := list.GetTaskWithUid(uid);
      ghost var k := IndexOfUid(list.tasks, uid);
      FoundIsInRange(node, k);
      if node == null {
        hal.MutexUnlock();
        return TASKID_NOT_EXIST;
      }
      var pkgName := node.pkgName;
      ret := list.ModifyPermission(node, k, permName, granted);
      hal.MutexUnlock();
      if ret < 0 {
        return PERM_NOT_EXIST;
      }
      ret := FileSync(hal, pkgName, permName, SetGranted(granted));
    }

    method UpdatePermissionFlags(identifier: string, permissionName: string, flags: int32) returns (ret: int)
      requires Valid()
      modifies hal`live, hal`files
      ensures Valid() && Lent() == old(Lent())
      ensures ret == SUCCESS ==> Now() == Step(hal.config, old(Now()), UpdateFlags(identifier, permissionName, flags)).state
      ensures ret != SUCCESS ==> Spoiled(old(hal.files), hal.files, identifier)
      ensures hal.reliable ==> Outcome(Now(), ret) == Step(hal.config, old(Now()), UpdateFlags(identifier, permissionName, flags))
    {
      hide Query, Segment, FilesFit, Synced, IsValidFlags;
      if !IsValidFlags(flags) {
        return INVALID_PARAMS;
      }
      ret := FileSync(hal, identifier, permissionName, SetFlags(flags));
    }

    /** The caller's array is left with the first occurrences in front. */
    method SaveOrUpdatePermissions(identifier: string, permissions: array<PermissionTrans>, permNum: int, isUpdate: int)
      returns (ret: int)
      requires Valid() && permNum <= permissions.Length && permissions !in list.Repr
      modifies hal`live, hal`files, permissions
      ensures Valid() && Lent() == old(Lent())
      ensures permNum < 0 ==> ret == INVALID_PARAMS && Now() == old(Now())
      ensures permNum > 0 && ret == SUCCESS ==>
        Now() == SaveStep(hal.config, old(Now()), identifier, old(permissions[..permNum]), isUpdate).state
      ensures permNum > 0 && ret == SUCCESS ==>
        FirstOccurrences(old(permissions[..permNum])) <= permissions[..]
      ensures permNum <= 0 || ret != SUCCESS ==> Spoiled(old(hal.files), hal.files, identifier)
      ensures hal.reliable && permNum >= 0 ==>
        Outcome(Now(), ret) == SaveStep(hal.config, old(Now()), identifier, old(permissions[..permNum]), isUpdate)
    {
      hide UpdateList, Encode, FilesFit, FirstOccurrences, Segment;
      if permNum < 0 || (isUpdate != UPDATE && isUpdate != FIRST_INSTALL) {
        return INVALID_PARAMS;
      }
      ghost var requests := permissions[..permNum];
      assert |requests| == permNum;
      if permNum > hal.config.maxPermissions {
        return TOO_MUCH_PERM;
      }
      var path := GetPath(hal, identifier);
      if path == null {
        return MALLOC_FAIL;
      }
      if permNum == 0 {
        var unlinked := hal.Unlink(identifier);
        hal.Free(path);
        SpoiledFits(old(hal.files), hal.files, identifier);
        assert requests == [];
        assert identifier !in old(hal.files) ==> old(hal.files) - {identifier} == old(hal.files);
        return SUCCESS;
      }
      hal.Free(path);
      var retCode, distinctNum := RemoveDuplicates(hal, permissions, permNum);
      if retCode != SUCCESS {
        return MALLOC_FAIL;
      }
      ret := UpdateAppPermission(hal, identifier, permissions, distinctNum, isUpdate);
      if ret == SUCCESS {
        assert FirstOccurrences(requests) == permissions[..distinctNum];
        SavedListSize(hal.config, old(hal.files), identifier, requests, isUpdate);
        WrittenFits(old(hal.files), identifier, SaveList(hal.config, old(hal.files), identifier, requests, isUpdate).value);
      } else {
        SpoiledFits(old(hal.files), hal.files, identifier);
      }
    }

    method DeletePermissions(identifier: string) returns (ret: int)
      requires Valid()
      modifies hal`live, hal`files
      ensures Valid() && Lent() == old(Lent())
      ensures ret == SUCCESS ==> Now() == DeleteStep(hal.config, old(Now()), identifier).state
      ensures ret != SUCCESS ==> Now() == old(Now()) && (ret == 12 || (ret == 20 && identifier in hal.files))
      ensures hal.reliable ==> Outcome(Now(), ret) == DeleteStep(hal.config, old(Now()), identifier)
    {
      hide Segment, EntryCount;
      var path := GetPath(hal, identifier);
      if path == null {
        return MALLOC_FAIL;
      }
      var present := hal.Access(identifier);
      if !present {
        hal.Free(path);
        assert hal.files - {identifier} == hal.files;
        return SUCCESS;
      }
      var ok := hal.Unlink(identifier);
      hal.Free(path);
      ret := if ok then SUCCESS else UNLINK_ERROR;
    }
  }
}
