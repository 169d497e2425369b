/** The permission file format: a JSON tree written by SavePermissions and read back by
    ParsePermissions. Text printing and parsing of the tree belong to cJSON and are not modelled. */
module PermissionCodec {
  import opened Common
  import opened PmsTypes
  import Decimal

  const FIELD_PERMISSION := "permissions"
  const FIELD_NAME := "name"
  const FIELD_DESC := "desc"
  const FIELD_IS_GRANTED := "isGranted"
  const FIELD_FLAGS := "flags"

  /** A parsed tree. A number carries the `valueint` the parser computed for it. */
  datatype Json =
    | JNull
    | JBool(b: bool)
    | JNumber(valueint: int32)
    | JString(text: string)
    | JArray(items: seq<Json>)
    | JObject(fields: seq<(string, Json)>)

  /** cJSON_GetObjectItem: the first field with that key. */
  function GetObjectItem(node: Json, key: string): Option<Json> {
    if node.JObject? then FirstField(node.fields, key) else None
  }

  function FirstField(fields: seq<(string, Json)>, key: string): Option<Json> {
    if fields == [] then None
    else if fields[0].0 == key then Some(fields[0].1)
    else FirstField(fields[1..], key)
  }

  /** What cJSON_GetArraySize counts and cJSON_GetArrayItem indexes: the children of any node. */
  function Children(node: Json): seq<Json> {
    match node
    case JArray(items) => items
    case JObject(fields) => seq(|fields|, i requires 0 <= i < |fields| => fields[i].1)
    case _ => []
  }

  function ValueInt(node: Json): int {
    match node
    case JBool(b) => if b then 1 else 0
    case JNumber(n) => n
    case _ => 0
  }

  // ---- writing

  function EntryTree(name: string, desc: string, granted: Json, flags: string): Json {
    JObject([(FIELD_NAME, JString(name)), (FIELD_DESC, JString(desc)), (FIELD_IS_GRANTED, granted), (FIELD_FLAGS, JString(flags))])
  }

  function EncodeEntry(p: PermissionSaved): Json {
    EntryTree(p.name, p.desc, JBool(p.granted != 0), Decimal.FormatInt(p.flags))
  }

  function EncodeEntries(ps: seq<PermissionSaved>): seq<Json> {
    seq(|ps|, i requires 0 <= i < |ps| => EncodeEntry(ps[i]))
  }

  /** The tree SavePermissions writes. */
  function Encode(ps: seq<PermissionSaved>): Json {
    JObject([(FIELD_PERMISSION, JArray(EncodeEntries(ps)))])
  }

  // ---- reading

  /** The fields both decoders read: name, description and granted status. */
  function DecodeFixed(node: Json): Result<(string, string, int)> {
    var name := GetObjectItem(node, FIELD_NAME);
    var desc := GetObjectItem(node, FIELD_DESC);
    var granted := GetObjectItem(node, FIELD_IS_GRANTED);
    if name.None? || desc.None? || granted.None? || !name.value.JString? || !desc.value.JString? then
      Failure(JSONPARSE_FAIL)
    else if |name.value.text| >= PERM_NAME_LEN || |desc.value.text| >= PERM_DESC_LEN then
      Failure(COPY_ERROR)
    else
      Success((name.value.text, desc.value.text, ValueInt(granted.value)))
  }

  function DecodeFlags(node: Json): Result<int32> {
    var flags := GetObjectItem(node, FIELD_FLAGS);
    if flags.None? || !flags.value.JString? then Failure(JSONPARSE_FAIL)
    else Success(Decimal.Atoi(flags.value.text))
  }

  function DecodeEntry(node: Json): (r: Result<PermissionSaved>)
    ensures r.Failure? ==> r.code == JSONPARSE_FAIL || r.code == COPY_ERROR
  {
    match DecodeFixed(node)
    case Failure(e) => Failure(e)
    case Success(fixed) =>
      match DecodeFlags(node)
      case Failure(e) => Failure(e)
      case Success(flags) => Success(PermissionSaved(fixed.0, fixed.1, fixed.2, flags))
  }

  /** Decoding of the first n items: the entries, or the error of the first bad one. */
  function DecodeUpTo(items: seq<Json>, n: nat): (r: Result<seq<PermissionSaved>>)
    requires n <= |items|
    ensures r.Success? ==> |r.value| == n
  {
    if n == 0 then Success([])
    else
      match DecodeUpTo(items, n - 1)
      case Failure(e) => Failure(e)
      case Success(ps) =>
        match DecodeEntry(items[n - 1])
        case Failure(e) => Failure(e)
        case Success(p) => Success(ps + [p])
  }

  /** Decoding succeeds exactly when every item decodes, and then yields each item's entry in order. */
  lemma {:induction false} DecodeUpToMeaning(items: seq<Json>, n: nat)
    requires n <= |items|
    ensures DecodeUpTo(items, n).Success? <==> forall i :: 0 <= i < n ==> DecodeEntry(items[i]).Success?
    ensures DecodeUpTo(items, n).Success? ==>
      forall i :: 0 <= i < n ==> DecodeEntry(items[i]) == Success(DecodeUpTo(items, n).value[i])
  {
    hide DecodeEntry;
    if n == 0 {
    } else {
      DecodeUpToMeaning(items, n - 1);
    }
  }

  /** A failing decode reports the error of the first item that fails. */
  lemma {:induction false} FirstErrorReported(items: seq<Json>, n: nat, i: nat)
    requires i < n <= |items| && DecodeEntry(items[i]).Failure?
    requires forall j :: 0 <= j < i ==> DecodeEntry(items[j]).Success?
    ensures DecodeUpTo(items, n) == Failure(DecodeEntry(items[i]).code)
  {
    hide DecodeEntry;
    if i < n - 1 {
      FirstErrorReported(items, n - 1, i);
    } else {
      DecodeUpToMeaning(items, i);
    }
  }

  /** The server's ParsePermissions on a parsed tree. */
  function Decode(root: Json): Result<seq<PermissionSaved>> {
    match GetObjectItem(root, FIELD_PERMISSION)
    case None => Success([])
    case Some(list) => DecodeUpTo(Children(list), |Children(list)|)
  }

  /** What one write and one read make of an entry whose texts fit. */
  function Normal(p: PermissionSaved): PermissionSaved {
    p.(granted := if p.granted == 0 then 0 else 1)
  }

  function NormalList(ps: seq<PermissionSaved>): seq<PermissionSaved> {
    seq(|ps|, i requires 0 <= i < |ps| => Normal(ps[i]))
  }

  ghost predicate TextsFit(ps: seq<PermissionSaved>) {
    forall i :: 0 <= i < |ps| ==> |ps[i].name| < PERM_NAME_LEN && |ps[i].desc| < PERM_DESC_LEN
  }

  lemma ReadEntryTree(name: string, desc: string, granted: Json, flags: string)
    ensures DecodeEntry(EntryTree(name, desc, granted, flags)) ==
      if |name| < PERM_NAME_LEN && |desc| < PERM_DESC_LEN
      then Success(PermissionSaved(name, desc, ValueInt(granted), Decimal.Atoi(flags)))
      else Failure(COPY_ERROR)
  {
    var node := EntryTree(name, desc, granted, flags);
    EntryFields(name, desc, granted, flags);
    hide EntryTree, GetObjectItem;
    assert DecodeFlags(node) == Success(Decimal.Atoi(flags));
  }

  lemma EntryFields(name: string, desc: string, granted: Json, flags: string)
    ensures
      var node := EntryTree(name, desc, granted, flags);
      && GetObjectItem(node, FIELD_NAME) == Some(JString(name))
      && GetObjectItem(node, FIELD_DESC) == Some(JString(desc))
      && GetObjectItem(node, FIELD_IS_GRANTED) == Some(granted)
      && GetObjectItem(node, FIELD_FLAGS) == Some(JString(flags))
  {
    var f := EntryTree(name, desc, granted, flags).fields;
    KeysDiffer();
    assert f[1..][1..] == f[2..] && f[2..][1..] == f[3..];
    assert FirstField(f[3..], FIELD_FLAGS) == Some(JString(flags));
    assert FirstField(f[2..], FIELD_IS_GRANTED) == Some(granted);
    assert FirstField(f[2..], FIELD_FLAGS) == FirstField(f[3..], FIELD_FLAGS);
    assert FirstField(f[1..], FIELD_DESC) == Some(JString(desc));
    assert FirstField(f[1..], FIELD_IS_GRANTED) == FirstField(f[2..], FIELD_IS_GRANTED);
    assert FirstField(f[1..], FIELD_FLAGS) == FirstField(f[2..], FIELD_FLAGS);
  }

  lemma ReadBackEntry(p: PermissionSaved)
    ensures DecodeEntry(EncodeEntry(p)) ==
      if |p.name| < PERM_NAME_LEN && |p.desc| < PERM_DESC_LEN then Success(Normal(p)) else Failure(COPY_ERROR)
  {
    hide EntryTree, DecodeEntry;
    ReadEntryTree(p.name, p.desc, JBool(p.granted != 0), Decimal.FormatInt(p.flags));
    Decimal.AtoiOfFormat(p.flags);
  }

  lemma KeysDiffer()
    ensures FIELD_NAME != FIELD_DESC && FIELD_NAME != FIELD_IS_GRANTED && FIELD_NAME != FIELD_FLAGS
    ensures FIELD_DESC != FIELD_IS_GRANTED && FIELD_DESC != FIELD_FLAGS && FIELD_IS_GRANTED != FIELD_FLAGS
  {
    assert FIELD_NAME[0] == 'n' && FIELD_DESC[0] == 'd' && FIELD_IS_GRANTED[0] == 'i' && FIELD_FLAGS[0] == 'f';
  }

  /** Writing and reading a list whose texts fit gives it back with granted reduced to 0 or 1. */
  lemma ReadBack(ps: seq<PermissionSaved>)
    requires TextsFit(ps)
    ensures Decode(Encode(ps)) == Success(NormalList(ps))
  {
    var items := EncodeEntries(ps);
    assert GetObjectItem(Encode(ps), FIELD_PERMISSION) == Some(JArray(items));
    forall i | 0 <= i < |items| ensures DecodeEntry(items[i]) == Success(Normal(ps[i])) { ReadBackEntry(ps[i]); }
    DecodeUpToMeaning(items, |items|);
    var r := DecodeUpTo(items, |items|);
    assert r.Success?;
    assert r.value == NormalList(ps);
  }

  /** A list survives a write and a read exactly when every entry is storable. */
  lemma RoundTrip(ps: seq<PermissionSaved>)
    ensures Decode(Encode(ps)) == Success(ps) <==> AllStorable(ps)
  {
    if AllStorable(ps) {
      ReadBack(ps);
      assert ps == NormalList(ps);
    } else {
      var i :| 0 <= i < |ps| && !Storable(ps[i]);
      var items := EncodeEntries(ps);
      assert GetObjectItem(Encode(ps), FIELD_PERMISSION) == Some(JArray(items));
      assert items[i] == EncodeEntry(ps[i]);
      ReadBackEntry(ps[i]);
      DecodeUpToMeaning(items, |items|);
    }
  }

  lemma DecodedEntryFits(node: Json)
    requires DecodeEntry(node).Success?
    ensures |DecodeEntry(node).value.name| < PERM_NAME_LEN && |DecodeEntry(node).value.desc| < PERM_DESC_LEN
  {
  }

  /** A decoded list has texts that fit, so it fails to survive only through a granted value outside {0,1}. */
  lemma DecodedFits(root: Json)
    requires Decode(root).Success?
    ensures TextsFit(Decode(root).value)
    ensures AllStorable(Decode(root).value) <==>
      forall i :: 0 <= i < |Decode(root).value| ==> Decode(root).value[i].granted in {0, 1}
  {
    var ps := Decode(root).value;
    forall i | 0 <= i < |ps| ensures |ps[i].name| < PERM_NAME_LEN && |ps[i].desc| < PERM_DESC_LEN {
      var items := Children(GetObjectItem(root, FIELD_PERMISSION).value);
      DecodeUpToMeaning(items, |items|);
      DecodedEntryFits(items[i]);
    }
  }
}
