/** Reading and writing permission files: the static helpers of the service, with every allocation and
    file access that can fail. Each contract says what a success means, what a failure may leave, and
    that exactly the blocks handed to the caller remain allocated. On a reliable HAL the outcome is the
    one PmsModel defines. */
module PermissionFile {
  import opened Common
  import opened PmsTypes
  import opened PermissionCodec
  import opened PmsModel
  import opened HalModel
  import Decimal

  /** The most entries whose array size fits a 32-bit allocation. */
  const MAX_ENTRIES := 0xFFFF_FFFF / SIZEOF_PERMISSION_SAVED

  function EntryCount(root: Json): nat {
    match GetObjectItem(root, FIELD_PERMISSION)
    case None => 0
    case Some(list) => |Children(list)|
  }

  /** No file has more entries than an allocation can hold. */
  ghost predicate FilesFit(files: Files) {
    forall id :: id in files && files[id].Tree? ==> EntryCount(files[id].root) <= MAX_ENTRIES
  }

  /** A permission array as the code passes it around: NULL when it has no entries. */
  ghost predicate Lists(perms: array?<PermissionSaved>, permNum: int, ps: seq<PermissionSaved>)
    reads perms
  {
    permNum == |ps| && if perms == null then ps == [] else perms[..] == ps && ps != []
  }

  /** A block that the callee allocated and left to its caller, or nothing. */
  ghost function Given(block: object?): set<object> {
    if block == null then {} else {block}
  }

  method ConcatString(hal: Hal, s1: string, s2: string) returns (r: Block?<string>)
    modifies hal`live
    ensures hal.live == old(hal.live) + Given(r) && (r != null ==> fresh(r))
    ensures r != null ==> |s1| + |s2| + 1 <= BUFF_SIZE_MAX_LENGTH && r.value == s1 + s2
    ensures hal.reliable && |s1| + |s2| + 1 <= BUFF_SIZE_MAX_LENGTH ==> r != null
  {
    var allocSize := |s1| + |s2| + 1;
    if allocSize > BUFF_SIZE_MAX_LENGTH {
      return null;
    }
    r := new Block(s1 + s2);
    var ok := hal.Malloc(r);
    if !ok {
      return null;
    }
  }

  method GetPath(hal: Hal, identifier: string) returns (path: Block?<string>)
    modifies hal`live
    ensures hal.live == old(hal.live) + Given(path) && (path != null ==> fresh(path))
    ensures path != null ==> PathFits(hal.config, identifier) && path.value == hal.config.permissionPath + identifier
    ensures hal.reliable && PathFits(hal.config, identifier) ==> path != null
  {
    path := ConcatString(hal, hal.config.permissionPath, identifier);
  }

  /** Replaces the file's text; a short write removes the file. */
  method WriteString(hal: Hal, identifier: string, root: Json) returns (ret: int)
    modifies hal`files
    ensures ret == SUCCESS ==> hal.files == old(hal.files)[identifier := Tree(root)]
    ensures ret != SUCCESS ==> Spoiled(old(hal.files), hal.files, identifier)
    ensures ret == 0 || (ret == 13 && hal.files == old(hal.files)) || (ret == 15 && (identifier in hal.files ==> hal.files[identifier] == Garbage))
    ensures hal.reliable ==> ret == SUCCESS
  {
    var isOpen, complete := hal.WriteText(identifier, root);
    if !isOpen {
      return OPENFD_FAIL;
    }
    if !complete {
      var ok := hal.Unlink(identifier);
      assert old(hal.files)[identifier := Garbage] - {identifier} == old(hal.files) - {identifier};
      return WRITEFD_FAIL;
    }
    return SUCCESS;
  }

  method ReadString(hal: Hal, identifier: string, path: string) returns (text: Block?<FileData>, errCode: int)
    requires path == hal.config.permissionPath + identifier
    modifies hal`live
    ensures hal.live == old(hal.live) + Given(text) && (text != null ==> fresh(text))
    ensures text != null <==> errCode == SUCCESS
    ensures text != null ==> hal.config.validPath(path) && identifier in hal.files && text.value == hal.files[identifier]
    ensures !hal.config.validPath(path) ==> errCode == PATH_INVALID
    ensures errCode in {0, 12, 13, 14, 23, 24}
    ensures hal.reliable && hal.config.validPath(path) && identifier in hal.files ==> text != null
  {
    if !hal.config.validPath(path) {
      return null, PATH_INVALID;
    }
    var r := hal.ReadFile(identifier);
    if r.Failure? {
      return null, r.code;
    }
    text := new Block(r.value);
    var ok := hal.Malloc(text);
    if !ok {
      return null, MALLOC_FAIL;
    }
    return text, SUCCESS;
  }

  method QueryPermissionString(hal: Hal, identifier: string) returns (text: Block?<FileData>, errCode: int)
    modifies hal`live
    ensures hal.live == old(hal.live) + Given(text) && (text != null ==> fresh(text))
    ensures text != null <==> errCode == SUCCESS
    ensures text != null ==> QueryText(hal.config, hal.files, identifier) == Success(text.value)
    ensures errCode == FILE_NOT_EXIST ==> QueryText(hal.config, hal.files, identifier) == Failure(FILE_NOT_EXIST)
    ensures hal.reliable ==>
      match QueryText(hal.config, hal.files, identifier)
      case Failure(e) => errCode == e
      case Success(_) => errCode == SUCCESS
  {
    var path := GetPath(hal, identifier);
    if path == null {
      return null, MALLOC_FAIL;
    }
    var present := hal.Access(identifier);
    if !present {
      hal.Free(path);
      return null, FILE_NOT_EXIST;
    }
    text, errCode := ReadString(hal, identifier, path.value);
    hal.Free(path);
  }

  /** Decodes the entries into a new array, or frees it and reports the first error. */
  method ParsePermissions(hal: Hal, data: FileData) returns (ret: int, perms: array?<PermissionSaved>, permNum: int)
    requires data.Tree? ==> EntryCount(data.root) <= MAX_ENTRIES
    modifies hal`live
    ensures hal.live == old(hal.live) + Given(perms) && (perms != null ==> fresh(perms))
    ensures ret == SUCCESS ==> Parse(data).Success? && Lists(perms, permNum, Parse(data).value)
    ensures ret != SUCCESS ==> perms == null && permNum == 0
    ensures ret != FILE_NOT_EXIST
    ensures hal.reliable ==> ret == (match Parse(data) case Success(_) => SUCCESS case Failure(e) => e)
  {
    hide DecodeEntry;
    perms, permNum := null, 0;
    if data.Garbage? {
      return JSONPARSE_FAIL, null, 0;
    }
    var list := GetObjectItem(data.root, FIELD_PERMISSION);
    var items := if list.Some? then Children(list.value) else [];
    var pSize := |items|;
    var allocSize := ToInt32(SIZEOF_PERMISSION_SAVED * pSize);
    if allocSize == 0 {
      assert pSize == 0;
      return SUCCESS, null, 0;
    }
    perms := new PermissionSaved[pSize](_ => PermissionSaved("", "", 0, 0));
    var ok := hal.Malloc(perms);
    if !ok {
      return MALLOC_FAIL, null, 0;
    }
    assert DecodeUpTo(items, 0) == Success(perms[..0]);
    var i := 0;
    while i < pSize
      invariant 0 <= i <= pSize && perms != null && fresh(perms) && perms.Length == pSize
      invariant hal.live == old(hal.live) + {perms}
      invariant DecodeUpTo(items, i) == Success(perms[..i])
    {
      var entry := DecodeEntry(items[i]);
      if entry.Failure? {
        DecodeUpToMeaning(items, i);
        FirstErrorReported(items, pSize, i);
        hal.Free(perms);
        return entry.code, null, 0;
      }
      perms[i] := entry.value;
      assert perms[..i + 1] == perms[..i] + [entry.value];
      i := i + 1;
    }
    assert perms[..] == perms[..pSize];
    return SUCCESS, perms, pSize;
  }

  method QueryPermission(hal: Hal, identifier: string) returns (ret: int, perms: array?<PermissionSaved>, permNum: int)
    requires FilesFit(hal.files)
    modifies hal`live
    ensures hal.live == old(hal.live) + Given(perms) && (perms != null ==> fresh(perms))
    ensures ret == SUCCESS ==>
      var q := Query(hal.config, hal.files, identifier);
      q.Success? && Lists(perms, permNum, q.value)
    ensures ret != SUCCESS ==> perms == null && permNum == 0
    ensures ret == FILE_NOT_EXIST ==> Query(hal.config, hal.files, identifier) == Failure(FILE_NOT_EXIST)
    ensures hal.reliable ==>
      match Query(hal.config, hal.files, identifier)
      case Failure(e) => ret == e
      case Success(_) => ret == SUCCESS
  {
    hide Decode, EntryCount;
    perms, permNum := null, 0;
    var text, errCode := QueryPermissionString(hal, identifier);
    if errCode != SUCCESS {
      return errCode, null, 0;
    }
    ret, perms, permNum := ParsePermissions(hal, text.value);
    hal.Free(text);
  }

  method WritePermissions(hal: Hal, identifier: string, root: Json) returns (ret: int)
    modifies hal`live, hal`files
    ensures hal.live == old(hal.live)
    ensures ret == SUCCESS ==> hal.files == old(hal.files)[identifier := Tree(root)]
    ensures ret != SUCCESS ==> Spoiled(old(hal.files), hal.files, identifier)
    ensures !PathFits(hal.config, identifier) ==> ret == PATH_INVALID && hal.files == old(hal.files)
    ensures ret in {0, 12, 13, 15, 24} && (ret == 12 || ret == 13 || ret == 24 ==> hal.files == old(hal.files))
    ensures hal.reliable && PathFits(hal.config, identifier) ==> ret == SUCCESS
  {
    var path := GetPath(hal, identifier);
    if path == null {
      return PATH_INVALID;
    }
    var printed := *;
    if !printed && !hal.reliable {
      hal.Free(path);
      return MALLOC_FAIL;
    }
    ret := WriteString(hal, identifier, root);
    hal.Free(path);
  }

  /** Builds the tree entry by entry and writes it. The "%d" text always fits its buffer. */
  method SavePermissions(hal: Hal, identifier: string, perms: array?<PermissionSaved>, permNum: int) returns (ret: int)
    requires 0 <= permNum && (perms != null ==> permNum <= perms.Length)
    modifies hal`live, hal`files
    ensures hal.live == old(hal.live)
    ensures ret == SUCCESS ==>
      perms != null && PathFits(hal.config, identifier) && hal.files == Written(old(hal.files), identifier, perms[..permNum])
    ensures ret != SUCCESS ==> Spoiled(old(hal.files), hal.files, identifier)
    ensures hal.reliable && perms != null ==>
      ret == (if PathFits(hal.config, identifier) then SUCCESS else PATH_INVALID)
      && (ret != SUCCESS ==> hal.files == old(hal.files))
  {
    if perms == null {
      return INVALID_PARAMS;
    }
    var items: seq<Json> := [];
    var i := 0;
    while i < permNum
      invariant 0 <= i <= permNum && hal.live == old(hal.live) && hal.files == old(hal.files)
      invariant items == EncodeEntries(perms[..i])
    {
      var created := *;
      if !created && !hal.reliable {
        return MALLOC_FAIL;
      }
      var buf := Decimal.FormatInt(perms[i].flags);
      Decimal.FormatFitsBuffer(perms[i].flags);
      assert |buf| < BUFF_PARAM_SIZE;
      var node := EntryTree(perms[i].name, perms[i].desc, JBool(perms[i].granted != 0), buf);
      items := items + [node];
      assert perms[..i + 1] == perms[..i] + [perms[i]];
      i := i + 1;
    }
    ret := WritePermissions(hal, identifier, JObject([(FIELD_PERMISSION, JArray(items))]));
  }

  lemma WrittenFits(files: Files, identifier: string, ps: seq<PermissionSaved>)
    requires FilesFit(files) && |ps| <= MAX_ENTRIES
    ensures FilesFit(Written(files, identifier, ps))
  {
    assert EntryCount(Encode(ps)) == |ps|;
  }

  lemma SpoiledFits(files: Files, files': Files, identifier: string)
    requires FilesFit(files) && Spoiled(files, files', identifier)
    ensures FilesFit(files')
  {
  }

  lemma QueriedFits(config: Config, files: Files, identifier: string)
    requires FilesFit(files) && Query(config, files, identifier).Success?
    ensures |Query(config, files, identifier).value| <= MAX_ENTRIES
  {
  }
}
