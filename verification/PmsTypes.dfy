/** Entities, limits and error codes of the permission manager. A `string` stands for the
    characters of a C string before its terminator. */
module PmsTypes {
  import opened Common

  const PERM_NAME_LEN := 64
  const PERM_DESC_LEN := 128
  const PKG_NAME_LEN := 64
  const BUFF_PARAM_SIZE := 16
  const BUFF_SIZE_MAX_LENGTH := 1024
  const SIZEOF_PERMISSION_SAVED := PERM_NAME_LEN + PERM_DESC_LEN + 4 + 4

  const NOT_GRANTED := 0
  const GRANTED := 1

  const PMS_FLAG_DEFAULT: int32 := 0
  const PMS_FLAG_USER_FIXED: int32 := 2
  const CAP_NOT_BINDED: uint32 := 0xFFFF_FFFF

  const FIRST_INSTALL := 0
  const UPDATE := 1

  const RET_OK := 0
  const RET_NOK := -1

  // PmsErrorCode
  const SUCCESS := 0
  const INVALID_PARAMS := 10
  const INVALID_PERMNAME := 11
  const MALLOC_FAIL := 12
  const OPENFD_FAIL := 13
  const READFD_FAIL := 14
  const WRITEFD_FAIL := 15
  const JSONPARSE_FAIL := 16
  const COPY_ERROR := 17
  const FIELD_TOO_LONG := 18
  const PERM_NOT_EXIST := 19
  const UNLINK_ERROR := 20
  const FILE_NOT_EXIST := 21
  const MEMSET_FAIL := 22
  const STAT_FAIL := 23
  const PATH_INVALID := 24
  const TOO_MUCH_PERM := 25
  const TASKID_NOT_EXIST := 26

  /** A permission as stored in a file and in a task's array. `granted` is a C enum: any int the
      file decoder reads can end up in it. */
  datatype PermissionSaved = PermissionSaved(name: string, desc: string, granted: int, flags: int32)

  datatype GrantTime = INUSE | ALWAYS

  /** A permission as an installer requests it. */
  datatype PermissionTrans = PermissionTrans(name: string, desc: string, when: GrantTime)

  datatype GrantType = USER_GRANT | SYSTEM_GRANT

  /** An entry of the device's permission catalogue. */
  datatype PermissionDef = PermissionDef(name: string, kind: GrantType, cap: uint32)

  /** What the HAL contributes to the behaviour: fixed while the service runs. */
  datatype Config = Config(
    permissionPath: string,
    validPath: string -> bool,
    catalogue: seq<PermissionDef>,
    maxPermissions: int)

  /** Index of the first permission called `name`, or |ps|. */
  function IndexOfName(ps: seq<PermissionSaved>, name: string): (i: nat)
    ensures i <= |ps|
    ensures i < |ps| ==> ps[i].name == name
    ensures forall j :: 0 <= j < i ==> ps[j].name != name
  {
    FirstIndex(ps, (p: PermissionSaved) => p.name == name)
  }

  /** The granted value a lookup by name answers with. */
  function GrantedOf(ps: seq<PermissionSaved>, name: string): int {
    var i := IndexOfName(ps, name);
    if i < |ps| then ps[i].granted else RET_NOK
  }

  ghost predicate DistinctNames(ps: seq<PermissionSaved>) {
    forall i, j :: 0 <= i < j < |ps| ==> ps[i].name != ps[j].name
  }

  /** The values a grant and a revoke pass on: GRANTED and NOT_GRANTED. */
  type Status = g: int | g == NOT_GRANTED || g == GRANTED

  /** The one field a grant, a revoke or a flags update overwrites. */
  datatype Change = SetGranted(granted: Status) | SetFlags(flags: int32)

  function Apply(p: PermissionSaved, c: Change): PermissionSaved {
    match c
    case SetGranted(g) => p.(granted := g)
    case SetFlags(f) => p.(flags := f)
  }

  /** The list with the change made to the first permission called `name`, if there is one. */
  function Changed(ps: seq<PermissionSaved>, name: string, c: Change): seq<PermissionSaved> {
    var i := IndexOfName(ps, name);
    if i < |ps| then ps[i := Apply(ps[i], c)] else ps
  }

  /** Same permissions with the same granted values, in the same order; descriptions and flags may differ. */
  ghost predicate SameGrants(a: seq<PermissionSaved>, b: seq<PermissionSaved>) {
    |a| == |b| && forall i :: 0 <= i < |a| ==> a[i].name == b[i].name && a[i].granted == b[i].granted
  }

  /** Same names and descriptions in the same order. */
  ghost predicate SameShape(a: seq<PermissionSaved>, b: seq<PermissionSaved>) {
    |a| == |b| && forall i :: 0 <= i < |a| ==> a[i].name == b[i].name && a[i].desc == b[i].desc
  }

  /** Entries a file can give back unchanged. */
  predicate Storable(p: PermissionSaved) {
    |p.name| < PERM_NAME_LEN && |p.desc| < PERM_DESC_LEN && (p.granted == NOT_GRANTED || p.granted == GRANTED)
  }

  ghost predicate AllStorable(ps: seq<PermissionSaved>) {
    forall i :: 0 <= i < |ps| ==> Storable(ps[i])
  }
}
