/** The permission manager on values: the task list as a sequence, the permission files as a map from
    package identifier to file contents, and every service call as a function of the state. These are
    the specifications the heap implementation in module Pms is proved against. I/O and allocation
    succeed here; what a failure may do is stated by the contracts in Pms and by the fault steps of
    module Interleaving. */
module PmsModel {
  import opened Common
  import opened PmsTypes
  import opened PermissionCodec
  import opened Installation

  /** A node of the task list. */
  datatype Task = Task(uid: int, pkgName: string, perms: seq<PermissionSaved>)

  /** Contents of a permission file: text that parses to a tree, or text that does not parse. */
  datatype FileData = Tree(root: Json) | Garbage

  type Files = map<string, FileData>

  datatype State = State(tasks: seq<Task>, files: Files)

  datatype Outcome = Outcome(state: State, ret: int)

  // ---- task list

  /** Position of the first task of that uid, or |tasks|. */
  function IndexOfUid(tasks: seq<Task>, uid: int): (k: nat)
    ensures k <= |tasks|
    ensures k < |tasks| ==> tasks[k].uid == uid
    ensures forall j :: 0 <= j < k ==> tasks[j].uid != uid
  {
    FirstIndex(tasks, (t: Task) => t.uid == uid)
  }

  /** Position of the first task of that package, or |tasks|. */
  function IndexOfPkg(tasks: seq<Task>, pkgName: string): (k: nat)
    ensures k <= |tasks|
    ensures k < |tasks| ==> tasks[k].pkgName == pkgName
    ensures forall j :: 0 <= j < k ==> tasks[j].pkgName != pkgName
  {
    FirstIndex(tasks, (t: Task) => t.pkgName == pkgName)
  }

  ghost predicate OneTaskPerUid(tasks: seq<Task>) {
    forall i, j :: 0 <= i < j < |tasks| ==> tasks[i].uid != tasks[j].uid
  }

  function WithoutUid(tasks: seq<Task>, uid: int): seq<Task> {
    var k := IndexOfUid(tasks, uid);
    if k < |tasks| then tasks[..k] + tasks[k + 1..] else tasks
  }

  /** The list after ModifyPermission on task k. */
  function Modified(tasks: seq<Task>, k: nat, permName: string, granted: Status): seq<Task>
    requires k < |tasks|
  {
    tasks[k := tasks[k].(perms := Changed(tasks[k].perms, permName, SetGranted(granted)))]
  }

  predicate Names(t: Task, permName: string) {
    IndexOfName(t.perms, permName) < |t.perms|
  }

  /** The answer of PermissionIsGranted. */
  function GrantedIn(tasks: seq<Task>, uid: int, permName: string): int {
    var k := IndexOfUid(tasks, uid);
    if k < |tasks| then GrantedOf(tasks[k].perms, permName) else RET_NOK
  }

  // ---- files

  predicate PathFits(config: Config, identifier: string) {
    |config.permissionPath| + |identifier| + 1 <= BUFF_SIZE_MAX_LENGTH
  }

  /** QueryPermissionString: the contents of the file, or why they cannot be had. */
  function QueryText(config: Config, files: Files, identifier: string): Result<FileData> {
    if !PathFits(config, identifier) then Failure(MALLOC_FAIL)
    else if identifier !in files then Failure(FILE_NOT_EXIST)
    else if !config.validPath(config.permissionPath + identifier) then Failure(PATH_INVALID)
    else Success(files[identifier])
  }

  /** ParsePermissions on a file's contents. */
  function Parse(data: FileData): Result<seq<PermissionSaved>> {
    match data
    case Garbage => Failure(JSONPARSE_FAIL)
    case Tree(root) => Decode(root)
  }

  /** QueryPermission. */
  function Query(config: Config, files: Files, identifier: string): Result<seq<PermissionSaved>> {
    match QueryText(config, files, identifier)
    case Failure(e) => Failure(e)
    case Success(data) => Parse(data)
  }

  function Written(files: Files, identifier: string, ps: seq<PermissionSaved>): Files {
    files[identifier := Tree(Encode(ps))]
  }

  /** The file update of a grant, a revoke or a flags change: read, change the first match, and
      write only if the overwritten field had another value. */
  function Synced(config: Config, files: Files, identifier: string, permName: string, c: Change): Files {
    match Query(config, files, identifier)
    case Failure(_) => files
    case Success(ps) =>
      if Changed(ps, permName, c) != ps then Written(files, identifier, Changed(ps, permName, c)) else files
  }

  function SyncStep(config: Config, s: State, identifier: string, permName: string, c: Change): Outcome {
    match Query(config, s.files, identifier)
    case Failure(e) => Outcome(s, e)
    case Success(_) => Outcome(s.(files := Synced(config, s.files, identifier, permName, c)), SUCCESS)
  }

  // ---- calls

  datatype Call =
    | Load(identifier: string, uid: int)
    | UnLoad(uid: int)
    | Grant(identifier: string, permName: string, granted: Status)
    | GrantRuntime(uid: int, permName: string, granted: Status)
    | UpdateFlags(identifier: string, permName: string, flags: int32)
    | Save(identifier: string, requests: seq<PermissionTrans>, isUpdate: int)
    | Delete(identifier: string)

  function LoadStep(config: Config, s: State, identifier: string, uid: int): Outcome {
    if uid < 0 then Outcome(s, INVALID_PARAMS)
    else if IndexOfUid(s.tasks, uid) < |s.tasks| then Outcome(s, SUCCESS)
    else match Query(config, s.files, identifier)
      case Failure(e) => Outcome(s, if e == FILE_NOT_EXIST then SUCCESS else e)
      case Success(ps) =>
        if |identifier| >= PKG_NAME_LEN then Outcome(s, COPY_ERROR)
        else Outcome(s.(tasks := [Task(uid, identifier, ps)] + s.tasks), SUCCESS)
  }

  /** Grant or revoke for a package: the first task of that package, then the file. */
  function GrantStep(config: Config, s: State, identifier: string, permName: string, granted: Status): Outcome {
    var k := IndexOfPkg(s.tasks, identifier);
    if k == |s.tasks| then SyncStep(config, s, identifier, permName, SetGranted(granted))
    else if !Names(s.tasks[k], permName) then Outcome(s, PERM_NOT_EXIST)
    else SyncStep(config, s.(tasks := Modified(s.tasks, k, permName, granted)), identifier, permName, SetGranted(granted))
  }

  /** Grant or revoke for a running task. */
  function GrantRuntimeStep(config: Config, s: State, uid: int, permName: string, granted: Status): Outcome {
    var k := IndexOfUid(s.tasks, uid);
    if k == |s.tasks| then Outcome(s, TASKID_NOT_EXIST)
    else if !Names(s.tasks[k], permName) then Outcome(s, PERM_NOT_EXIST)
    else SyncStep(config, s.(tasks := Modified(s.tasks, k, permName, granted)),
                  s.tasks[k].pkgName, permName, SetGranted(granted))
  }

  /** IsValidFlags: as an unsigned number, flags has no bit outside PMS_FLAG_VALID_MASK, which is bit 1. */
  predicate IsValidFlags(flags: int32) {
    ToUnsigned(flags) / 4 == 0 && ToUnsigned(flags) % 2 == 0
  }

  /** The permissions an upgrade starts from; a missing file counts as an empty list. */
  function OldPermissions(config: Config, files: Files, identifier: string, isUpdate: int)
    : Result<seq<PermissionSaved>>
  {
    if isUpdate != UPDATE then Success([])
    else match Query(config, files, identifier)
      case Failure(e) => if e == FILE_NOT_EXIST then Success([]) else Failure(e)
      case Success(ps) => Success(ps)
  }

  /** The list UpdateAppPermission writes, or the error it stops with. */
  function UpdateList(config: Config, files: Files, identifier: string, requests: seq<PermissionTrans>, isUpdate: int)
    : Result<seq<PermissionSaved>>
  {
    if requests == [] then Failure(INVALID_PARAMS)
    else match OldPermissions(config, files, identifier, isUpdate)
      case Failure(e) => Failure(e)
      case Success(ps) =>
        if exists i :: 0 <= i < |requests| && TooLong(requests[i]) then Failure(FIELD_TOO_LONG)
        else if !PathFits(config, identifier) then Failure(PATH_INVALID)
        else Success(Merged(config.catalogue, ps, requests))
  }

  /** The list SaveOrUpdatePermissions writes for a non-empty request, or the error it stops with. */
  function SaveList(config: Config, files: Files, identifier: string, requests: seq<PermissionTrans>, isUpdate: int)
    : Result<seq<PermissionSaved>>
  {
    if isUpdate != UPDATE && isUpdate != FIRST_INSTALL then Failure(INVALID_PARAMS)
    else if |requests| > config.maxPermissions then Failure(TOO_MUCH_PERM)
    else if !PathFits(config, identifier) then Failure(MALLOC_FAIL)
    else UpdateList(config, files, identifier, FirstOccurrences(requests), isUpdate)
  }

  /** An empty request removes the file. */
  predicate IsRemoval(config: Config, identifier: string, requests: seq<PermissionTrans>, isUpdate: int) {
    && (isUpdate == UPDATE || isUpdate == FIRST_INSTALL)
    && requests == [] && 0 <= config.maxPermissions && PathFits(config, identifier)
  }

  /** SaveOrUpdatePermissions. */
  function SaveStep(config: Config, s: State, identifier: string, requests: seq<PermissionTrans>, isUpdate: int)
    : Outcome
  {
    if IsRemoval(config, identifier, requests, isUpdate) then Outcome(s.(files := s.files - {identifier}), SUCCESS)
    else match SaveList(config, s.files, identifier, requests, isUpdate)
      case Failure(e) => Outcome(s, e)
      case Success(ps) => Outcome(s.(files := Written(s.files, identifier, ps)), SUCCESS)
  }

  function DeleteStep(config: Config, s: State, identifier: string): Outcome {
    if !PathFits(config, identifier) then Outcome(s, MALLOC_FAIL)
    else Outcome(s.(files := s.files - {identifier}), SUCCESS)
  }

  function Step(config: Config, s: State, call: Call): Outcome {
    match call
    case Load(identifier, uid) => LoadStep(config, s, identifier, uid)
    case UnLoad(uid) => Outcome(s.(tasks := WithoutUid(s.tasks, uid)), SUCCESS)
    case Grant(identifier, permName, granted) => GrantStep(config, s, identifier, permName, granted)
    case GrantRuntime(uid, permName, granted) => GrantRuntimeStep(config, s, uid, permName, granted)
    case UpdateFlags(identifier, permName, flags) =>
      if !IsValidFlags(flags) then Outcome(s, INVALID_PARAMS)
      else SyncStep(config, s, identifier, permName, SetFlags(flags))
    case Save(identifier, requests, isUpdate) => SaveStep(config, s, identifier, requests, isUpdate)
    case Delete(identifier) => DeleteStep(config, s, identifier)
  }

  function CheckPermissionStat(s: State, uid: int, permName: string): int {
    if uid < 0 then INVALID_PARAMS else GrantedIn(s.tasks, uid, permName)
  }

  lemma MaskLeavesOneBit(u: bv32)
    ensures u & !0x2 == 0 <==> u == 0 || u == 2
  {
  }

  /** The mask test on the 32 bits of a flags value is IsValidFlags, and lets only the default and
      the user-fixed flag through. */
  lemma ValidFlagsAreZeroOrTwo(u: bv32, flags: int32)
    requires u as int == ToUnsigned(flags)
    ensures (u == 0 || u & !0x2 == 0) <==> IsValidFlags(flags)
    ensures IsValidFlags(flags) <==> flags == PMS_FLAG_DEFAULT || flags == PMS_FLAG_USER_FIXED
  {
    MaskLeavesOneBit(u);
    assert u as int == 2 ==> u == 2;
    assert u as int == 0 ==> u == 0;
  }
}
