/** The client library's own decoder of the permission text, written separately from the server's. */
module ClientDecoder {
  import opened Common
  import opened PmsTypes
  import opened PermissionCodec
  import opened PmsModel
  import opened HalModel
  import opened PermissionFile

  const PERMISSION_NUM_MAX := 1000

  /** What the client reads of a permission: it leaves the flags alone. */
  datatype ClientPermission = ClientPermission(name: string, desc: string, granted: int)

  function ClientEntry(node: Json): Result<ClientPermission> {
    match DecodeFixed(node)
    case Failure(e) => Failure(e)
    case Success(fixed) => Success(ClientPermission(fixed.0, fixed.1, fixed.2))
  }

  function ClientUpTo(items: seq<Json>, n: nat): (r: Result<seq<ClientPermission>>)
    requires n <= |items|
    ensures r.Success? ==> |r.value| == n
  {
    if n == 0 then Success([])
    else
      match ClientUpTo(items, n - 1)
      case Failure(e) => Failure(e)
      case Success(ps) =>
        match ClientEntry(items[n - 1])
        case Failure(e) => Failure(e)
        case Success(p) => Success(ps + [p])
  }

  lemma {:induction false} ClientUpToMeaning(items: seq<Json>, n: nat)
    requires n <= |items|
    ensures ClientUpTo(items, n).Success? <==> forall i :: 0 <= i < n ==> ClientEntry(items[i]).Success?
    ensures ClientUpTo(items, n).Success? ==>
      forall i :: 0 <= i < n ==> ClientEntry(items[i]) == Success(ClientUpTo(items, n).value[i])
  {
    hide ClientEntry;
    if n == 0 {
    } else {
      ClientUpToMeaning(items, n - 1);
    }
  }

  lemma {:induction false} FirstClientErrorReported(items: seq<Json>, n: nat, i: nat)
    requires i < n <= |items| && ClientEntry(items[i]).Failure?
    requires forall j :: 0 <= j < i ==> ClientEntry(items[j]).Success?
    ensures ClientUpTo(items, n) == Failure(ClientEntry(items[i]).code)
  {
    hide ClientEntry;
    if i < n - 1 {
      FirstClientErrorReported(items, n - 1, i);
    } else {
      ClientUpToMeaning(items, i);
    }
  }

  /** The client accepts only an array of at most PERMISSION_NUM_MAX entries. */
  predicate ClientAccepts(root: Json) {
    var list := GetObjectItem(root, FIELD_PERMISSION);
    list.Some? && list.value.JArray? && |list.value.items| <= PERMISSION_NUM_MAX
  }

  function ClientDecode(root: Json): Result<seq<ClientPermission>> {
    if !ClientAccepts(root) then Failure(JSONPARSE_FAIL)
    else
      var items := GetObjectItem(root, FIELD_PERMISSION).value.items;
      ClientUpTo(items, |items|)
  }

  function ClientParse(data: FileData): Result<seq<ClientPermission>> {
    match data
    case Garbage => Failure(JSONPARSE_FAIL)
    case Tree(root) => ClientDecode(root)
  }

  ghost predicate SameToClient(ps: seq<PermissionSaved>, cs: seq<ClientPermission>) {
    |cs| == |ps| && forall i :: 0 <= i < |ps| ==> cs[i] == ClientPermission(ps[i].name, ps[i].desc, ps[i].granted)
  }

  /** Of the trees the server decodes, the client decodes exactly those whose permissions field is an
      array within its bound, and then reads the same names, descriptions and granted values. */
  lemma DecodersAgree(root: Json)
    requires Decode(root).Success?
    ensures ClientDecode(root).Success? <==> ClientAccepts(root)
    ensures ClientDecode(root).Success? ==> SameToClient(Decode(root).value, ClientDecode(root).value)
  {
    hide GetObjectItem, DecodeFixed, DecodeFlags;
    if ClientAccepts(root) {
      var items := GetObjectItem(root, FIELD_PERMISSION).value.items;
      var ps := Decode(root).value;
      DecodeUpToMeaning(items, |items|);
      ClientUpToMeaning(items, |items|);
      forall i | 0 <= i < |items|
        ensures ClientEntry(items[i]) == Success(ClientPermission(ps[i].name, ps[i].desc, ps[i].granted))
      {
        assert DecodeEntry(items[i]) == Success(ps[i]);
      }
    }
  }

  /** Every list the server can write from texts that fit is read alike by both, unless it has more
      entries than the client allows. */
  lemma DecodersAgreeOnWritten(ps: seq<PermissionSaved>)
    requires TextsFit(ps)
    ensures Decode(Encode(ps)).Success?
    ensures ClientDecode(Encode(ps)).Success? <==> |ps| <= PERMISSION_NUM_MAX
    ensures |ps| <= PERMISSION_NUM_MAX ==> SameToClient(Decode(Encode(ps)).value, ClientDecode(Encode(ps)).value)
  {
    hide Decode, ClientDecode;
    ReadBack(ps);
    assert GetObjectItem(Encode(ps), FIELD_PERMISSION) == Some(JArray(EncodeEntries(ps)));
    DecodersAgree(Encode(ps));
  }

  /** The client's ParsePermissions. The array size is computed in a 32-bit int and cannot overflow. */
  method ParsePermissions(hal: Hal, data: FileData) returns (ret: int, perms: array?<ClientPermission>, permNum: int)
    modifies hal`live
    ensures hal.live == old(hal.live) + Given(perms) && (perms != null ==> fresh(perms))
    ensures ret == SUCCESS ==>
      && ClientParse(data).Success? && permNum == |ClientParse(data).value|
      && (if perms == null then permNum == 0 else perms[..] == ClientParse(data).value)
    ensures ret != SUCCESS ==> perms == null && permNum == 0
    ensures hal.reliable ==> ret == (match ClientParse(data) case Success(_) => SUCCESS case Failure(e) => e)
  {
    hide ClientEntry;
    perms, permNum := null, 0;
    if data.Garbage? {
      return JSONPARSE_FAIL, null, 0;
    }
    var list := GetObjectItem(data.root, FIELD_PERMISSION);
    if list.None? || !list.value.JArray? {
      return JSONPARSE_FAIL, null, 0;
    }
    var items := list.value.items;
    var pSize := |items|;
    if pSize > PERMISSION_NUM_MAX {
      return JSONPARSE_FAIL, null, 0;
    }
    var allocSize: int32 := SIZEOF_PERMISSION_SAVED * pSize;
    if allocSize == 0 {
      return SUCCESS, null, 0;
    }
    perms := new ClientPermission[pSize](_ => ClientPermission("", "", 0));
    var ok := hal.Malloc(perms);
    if !ok {
      return MALLOC_FAIL, null, 0;
    }
    assert ClientUpTo(items, 0) == Success(perms[..0]);
    var i := 0;
    while i < pSize
      invariant 0 <= i <= pSize && perms != null && fresh(perms) && perms.Length == pSize
      invariant hal.live == old(hal.live) + {perms}
      invariant ClientUpTo(items, i) == Success(perms[..i])
    {
      var entry := ClientEntry(items[i]);
      if entry.Failure? {
        ClientUpToMeaning(items, i);
        FirstClientErrorReported(items, pSize, i);
        hal.Free(perms);
        return entry.code, null, 0;
      }
      perms[i] := entry.value;
      assert perms[..i + 1] == perms[..i] + [entry.value];
      i := i + 1;
    }
    assert perms[..] == perms[..pSize];
    return SUCCESS, perms, pSize;
  }
}
