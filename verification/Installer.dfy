/** Installing and upgrading a package's permissions: SaveOrUpdatePermissions with its in-place
    duplicate removal and its quadratic merge. */
module Installer {
  import opened Common
  import opened PmsTypes
  import opened PermissionCodec
  import opened Installation
  import opened PmsModel
  import opened HalModel
  import opened PermissionFile

  /** One step of the outer loop, on values. */
  lemma FirstOccurrencesStep(s: seq<PermissionTrans>, i: nat)
    requires i < |s|
    ensures FirstOccurrences(s[..i + 1]) == FirstOccurrences(s[..i]) + if NamedIn(s[..i], s[i].name) then [] else [s[i]]
    ensures forall k :: 0 <= k < |s| ==> (NamedIn(s[..i + 1], s[k].name) <==> NamedIn(s[..i], s[k].name) || s[i].name == s[k].name)
  {
    assert s[..i + 1][..i] == s[..i];
    assert s[..i + 1] == s[..i] + [s[i]];
    forall k | 0 <= k < |s|
      ensures NamedIn(s[..i + 1], s[k].name) <==> NamedIn(s[..i], s[k].name) || s[i].name == s[k].name
    {
      NamedInAppend(s[..i], s[i], s[k].name);
    }
  }

  /** Moves the first occurrences to the front of the array. flag[j] marks slot j as a repetition of an
      earlier slot. Slots from i on still hold their original entries when the loop reaches them, so no
      comparison reads an overwritten slot. */
  method RemoveDuplicates(hal: Hal, permissions: array<PermissionTrans>, permNum: int) returns (ret: int, distinctNum: int)
    requires 0 <= permNum <= permissions.Length
    modifies hal`live, permissions
    ensures hal.live == old(hal.live)
    ensures ret == SUCCESS || ret == MALLOC_FAIL
    ensures hal.reliable ==> ret == SUCCESS
    ensures ret == SUCCESS ==>
      && 0 <= distinctNum <= permNum
      && permissions[..distinctNum] == FirstOccurrences(old(permissions[..permNum]))
    ensures forall k :: permNum <= k < permissions.Length ==> permissions[k] == old(permissions[k])
    ensures ret != SUCCESS ==> permissions[..] == old(permissions[..])
  {
    hide FirstOccurrences, NamedIn;
    distinctNum := 0;
    var flag := new int[permNum](_ => 0);
    var ok := hal.Malloc(flag);
    if !ok {
      return MALLOC_FAIL, 0;
    }
    ghost var s := permissions[..permNum];
    NothingBefore(s);
    var i := 0;
    while i < permNum
      invariant 0 <= distinctNum <= i <= permNum
      invariant hal.live == old(hal.live) + {flag}
      invariant permissions[..distinctNum] == FirstOccurrences(s[..i])
      invariant forall k :: i <= k < permissions.Length ==> permissions[k] == old(permissions[k])
      invariant forall k :: i <= k < permNum ==> (flag[k] != 0 <==> NamedIn(s[..i], s[k].name))
    {
      FirstOccurrencesStep(s, i);
      if flag[i] != 0 {
        i := i + 1;
        continue;
      }
      permissions[distinctNum] := permissions[i];
      assert permissions[..distinctNum + 1] == permissions[..distinctNum] + [s[i]];
      distinctNum := distinctNum + 1;
      MarkRepetitions(permissions, flag, permNum, i, s);
      i := i + 1;
    }
    hal.Free(flag);
    assert s[..permNum] == s;
    return SUCCESS, distinctNum;
  }

  lemma NothingBefore(s: seq<PermissionTrans>)
    ensures FirstOccurrences(s[..0]) == []
    ensures forall name :: !NamedIn(s[..0], name)
  {
  }

  /** The inner loop: flags the slots after i that repeat the name in slot i. */
  method MarkRepetitions(permissions: array<PermissionTrans>, flag: array<int>, permNum: int, i: int, ghost s: seq<PermissionTrans>)
    requires 0 <= i < permNum <= permissions.Length && flag.Length == permNum
    requires |s| == permNum && forall k :: i <= k < permNum ==> permissions[k] == s[k]
    modifies flag
    ensures forall k :: i < k < permNum ==> (flag[k] != 0 <==> old(flag[k]) != 0 || s[i].name == s[k].name)
  {
    var j := i + 1;
    while j < permNum
      invariant i + 1 <= j <= permNum
      invariant forall k :: i < k < j ==> (flag[k] != 0 <==> old(flag[k]) != 0 || s[i].name == s[k].name)
      invariant forall k :: j <= k < permNum ==> flag[k] == old(flag[k])
    {
      if permissions[i].name == permissions[j].name {
        flag[j] := 1;
      }
      j := j + 1;
    }
  }

  method GetPermissionType(hal: Hal, permission: string) returns (r: Option<GrantType>)
    ensures r == CatalogueType(hal.config.catalogue, permission)
  {
    var permList := hal.config.catalogue;
    var i := 0;
    while i < |permList|
      invariant 0 <= i <= |permList|
      invariant forall k :: 0 <= k < i ==> permList[k].name != permission
    {
      if permList[i].name == permission {
        return Some(permList[i].kind);
      }
      i := i + 1;
    }
    return None;
  }

  lemma DefaultOfType(catalogue: seq<PermissionDef>, name: string)
    ensures DefaultGranted(catalogue, name) == if CatalogueType(catalogue, name) == Some(SYSTEM_GRANT) then GRANTED else NOT_GRANTED
  {
    hide CatalogueType;
  }

  /** The granted value of a new entry: the default of its type, overwritten by every old entry of the
      same name in turn. */
  method InheritGranted(hal: Hal, name: string, stored: array?<PermissionSaved>, permNum: int, ghost ps: seq<PermissionSaved>)
    returns (granted: int)
    requires Lists(stored, permNum, ps)
    ensures granted == Inherited(ps, |ps|, name, DefaultGranted(hal.config.catalogue, name))
    ensures (forall j :: 0 <= j < |ps| ==> ps[j].name != name) ==> granted == if SystemGranted(hal.config.catalogue, name) then 1 else 0
    ensures forall i :: 0 <= i < |ps| && ps[i].name == name && (forall j :: i < j < |ps| ==> ps[j].name != name) ==> granted == ps[i].granted
  {
    hide SystemGranted, DefaultGranted, CatalogueType;
    DefaultGrantedMeaning(hal.config.catalogue, name);
    InheritedMeaning(ps, |ps|, name, DefaultGranted(hal.config.catalogue, name));
    var permType := GetPermissionType(hal, name);
    granted := NOT_GRANTED;
    if permType.Some? {
      granted := if permType.value == SYSTEM_GRANT then GRANTED else NOT_GRANTED;
    }
    assert granted == DefaultGranted(hal.config.catalogue, name) by { DefaultOfType(hal.config.catalogue, name); }
    var j := 0;
    while j < permNum
      invariant 0 <= j <= permNum
      invariant granted == Inherited(ps, j, name, DefaultGranted(hal.config.catalogue, name))
    {
      if name == stored[j].name {
        granted := stored[j].granted;
      }
      j := j + 1;
    }
  }

  /** The old list an upgrade inherits from; a missing file reads as the empty list. */
  method ReadOldPermissions(hal: Hal, identifier: string, isUpdate: int)
    returns (retCode: int, permissions: array?<PermissionSaved>, permNum: int)
    requires FilesFit(hal.files)
    modifies hal`live
    ensures hal.live == old(hal.live) + Given(permissions) && (permissions != null ==> fresh(permissions))
    ensures retCode == SUCCESS || retCode == FILE_NOT_EXIST ==>
      var r := OldPermissions(hal.config, hal.files, identifier, isUpdate);
      r.Success? && Lists(permissions, permNum, r.value)
    ensures retCode != SUCCESS ==> permissions == null
    ensures hal.reliable ==>
      match OldPermissions(hal.config, hal.files, identifier, isUpdate)
      case Failure(e) => retCode == e && e != FILE_NOT_EXIST
      case Success(_) => retCode == SUCCESS || retCode == FILE_NOT_EXIST
  {
    hide Query;
    permissions, permNum, retCode := null, 0, SUCCESS;
    if isUpdate == UPDATE {
      retCode, permissions, permNum := QueryPermission(hal, identifier);
    }
  }

  method UpdateAppPermission(hal: Hal, identifier: string, newPerms: array<PermissionTrans>, newPermNum: int, isUpdate: int)
    returns (ret: int)
    requires FilesFit(hal.files) && 0 <= newPermNum <= newPerms.Length && newPermNum <= MAX_ENTRIES
    modifies hal`live, hal`files
    ensures hal.live == old(hal.live)
    ensures ret == SUCCESS ==>
      var list := UpdateList(hal.config, old(hal.files), identifier, newPerms[..newPermNum], isUpdate);
      list.Success? && hal.files == Written(old(hal.files), identifier, list.value)
    ensures ret != SUCCESS ==> Spoiled(old(hal.files), hal.files, identifier)
    ensures hal.reliable ==>
      match UpdateList(hal.config, old(hal.files), identifier, newPerms[..newPermNum], isUpdate)
      case Failure(e) => ret == e && hal.files == old(hal.files)
      case Success(_) => ret == SUCCESS
  {
    hide OldPermissions, Encode, Inherited, DefaultGranted;
    if newPermNum <= 0 {
      return INVALID_PARAMS;
    }
    ghost var requests := newPerms[..newPermNum];
    var retCode, permissions, permNum := ReadOldPermissions(hal, identifier, isUpdate);
    if retCode != SUCCESS && retCode != FILE_NOT_EXIST {
      return retCode;
    }
    ghost var ps := OldPermissions(hal.config, hal.files, identifier, isUpdate).value;
    var updatePerms := new PermissionSaved[newPermNum](_ => PermissionSaved("", "", 0, 0));
    var ok := hal.Malloc(updatePerms);
    if !ok {
      hal.Free(permissions);
      return MALLOC_FAIL;
    }
    var i := 0;
    while i < newPermNum
      invariant 0 <= i <= newPermNum && hal.files == old(hal.files)
      invariant hal.live == old(hal.live) + Given(permissions) + {updatePerms}
      invariant Lists(permissions, permNum, ps)
      invariant newPerms[..newPermNum] == requests
      invariant forall k :: 0 <= k < i ==> !TooLong(requests[k])
      invariant forall k :: 0 <= k < i ==> updatePerms[k] == MergedEntry(hal.config.catalogue, ps, requests[k])
    {
      var request := newPerms[i];
      assert request == requests[i];
      if TooLong(request) {
        hal.Free(updatePerms);
        hal.Free(permissions);
        return FIELD_TOO_LONG;
      }
      var granted := InheritGranted(hal, request.name, permissions, permNum, ps);
      updatePerms[i] := PermissionSaved(request.name, request.desc, granted, PMS_FLAG_DEFAULT);
      i := i + 1;
    }
    assert updatePerms[..newPermNum] == Merged(hal.config.catalogue, ps, requests);
    ret := SavePermissions(hal, identifier, updatePerms, newPermNum);
    hal.Free(updatePerms);
    hal.Free(permissions);
  }

  lemma SavedListSize(config: Config, files: Files, identifier: string, requests: seq<PermissionTrans>, isUpdate: int)
    requires SaveList(config, files, identifier, requests, isUpdate).Success?
    ensures |SaveList(config, files, identifier, requests, isUpdate).value| <= config.maxPermissions
  {
    hide OldPermissions;
    FirstOccurrencesSize(requests);
  }
}
