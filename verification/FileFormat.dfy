/** The permission file format in literal terms: which fields the decoders read, under which keys, with
    which limits and errors, and what the encoder writes. Fields are named by their text, limits and error
    codes by their number, so that these lemmas fix the definitions of PermissionCodec and ClientDecoder. */
module FileFormat {
  import opened Common
  import opened PmsTypes
  import opened PermissionCodec
  import opened PmsModel
  import opened ClientDecoder
  import Decimal

  /** Field k is the first one with that key. */
  ghost predicate FirstAt(fields: seq<(string, Json)>, key: string, k: int) {
    0 <= k < |fields| && fields[k].0 == key && forall j :: 0 <= j < k ==> fields[j].0 != key
  }

  /** The node is an object with no field of that key, or no object. */
  ghost predicate Lacks(node: Json, key: string) {
    node.JObject? ==> forall j :: 0 <= j < |node.fields| ==> node.fields[j].0 != key
  }

  lemma {:induction false} FirstFieldMeaning(fields: seq<(string, Json)>, key: string)
    ensures FirstField(fields, key).None? <==> forall j :: 0 <= j < |fields| ==> fields[j].0 != key
    ensures forall k :: FirstAt(fields, key, k) ==> FirstField(fields, key) == Some(fields[k].1)
    ensures FirstField(fields, key).Some? ==> exists k :: FirstAt(fields, key, k)
  {
    if fields == [] {
    } else {
      var rest := fields[1..];
      FirstFieldMeaning(rest, key);
      assert forall j :: 0 <= j < |rest| ==> rest[j] == fields[j + 1];
      assert forall j :: 1 <= j < |fields| ==> fields[j] == rest[j - 1];
      if fields[0].0 == key {
        assert FirstAt(fields, key, 0);
      } else {
        forall k | FirstAt(fields, key, k) ensures FirstField(fields, key) == Some(fields[k].1) {
          assert FirstAt(rest, key, k - 1);
        }
        if k :| FirstAt(rest, key, k) {
          assert FirstAt(fields, key, k + 1);
        }
      }
    }
  }

  /** A lookup finds the first field of that key, and nothing else. */
  lemma LookupMeaning(node: Json, key: string)
    ensures GetObjectItem(node, key).None? <==> Lacks(node, key)
    ensures node.JObject? ==> forall k :: FirstAt(node.fields, key, k) ==> GetObjectItem(node, key) == Some(node.fields[k].1)
    ensures !Lacks(node, key) ==> exists k :: FirstAt(node.fields, key, k)
  {
    if node.JObject? {
      FirstFieldMeaning(node.fields, key);
    }
  }

  /** What cJSON computes as the integer value of a node. */
  ghost function IntOf(node: Json): int {
    match node
    case JBool(true) => 1
    case JNumber(n) => n
    case _ => 0
  }

  // ---- one entry

  /** An entry with all four fields: text of "name" and "desc", integer of "isGranted", atoi of "flags";
      error 16 for a field that is no string, 17 for a text too long for its buffer, in that order. */
  lemma EntryMeaning(f: seq<(string, Json)>, a: nat, b: nat, c: nat, d: nat)
    requires FirstAt(f, "name", a) && FirstAt(f, "desc", b) && FirstAt(f, "isGranted", c) && FirstAt(f, "flags", d)
    ensures DecodeEntry(JObject(f)) ==
      if !f[a].1.JString? || !f[b].1.JString? then Failure(16)
      else if |f[a].1.text| >= 64 || |f[b].1.text| >= 128 then Failure(17)
      else if !f[d].1.JString? then Failure(16)
      else Success(PermissionSaved(f[a].1.text, f[b].1.text, IntOf(f[c].1), Decimal.Atoi(f[d].1.text)))
  {
    hide GetObjectItem;
    LookupMeaning(JObject(f), "name");
    LookupMeaning(JObject(f), "desc");
    LookupMeaning(JObject(f), "isGranted");
    LookupMeaning(JObject(f), "flags");
  }

  /** A missing field is error 16, unless only "flags" is missing and a text is too long. */
  lemma EntryMissesField(node: Json)
    ensures Lacks(node, "name") || Lacks(node, "desc") || Lacks(node, "isGranted") ==> DecodeEntry(node) == Failure(16)
    ensures Lacks(node, "flags") ==> DecodeEntry(node) == Failure(16) || DecodeEntry(node) == Failure(17)
    ensures Lacks(node, "flags") && DecodeEntry(node) == Failure(17) ==>
      exists a, b :: FirstAt(node.fields, "name", a) && FirstAt(node.fields, "desc", b)
        && node.fields[a].1.JString? && node.fields[b].1.JString?
        && (|node.fields[a].1.text| >= 64 || |node.fields[b].1.text| >= 128)
    ensures Lacks(node, "flags") && DecodeEntry(node) == Failure(16) ==>
      forall a, b ::
        (!Lacks(node, "isGranted") && FirstAt(node.fields, "name", a) && FirstAt(node.fields, "desc", b)
         && node.fields[a].1.JString? && node.fields[b].1.JString?) ==>
        |node.fields[a].1.text| < 64 && |node.fields[b].1.text| < 128
  {
    hide GetObjectItem;
    LookupMeaning(node, "name");
    LookupMeaning(node, "desc");
    LookupMeaning(node, "isGranted");
    LookupMeaning(node, "flags");
    if Lacks(node, "flags") && DecodeEntry(node) == Failure(17) {
      var a :| FirstAt(node.fields, "name", a);
      var b :| FirstAt(node.fields, "desc", b);
    }
  }

  /** An entry decodes if and only if it is an object whose first "name" and "desc" are strings under 64 and
      128 characters, that has an "isGranted", and whose first "flags" is a string. */
  lemma EntryDecodesIff(node: Json)
    ensures DecodeEntry(node).Success? <==>
      && node.JObject?
      && (exists a :: FirstAt(node.fields, "name", a) && node.fields[a].1.JString? && |node.fields[a].1.text| < 64)
      && (exists b :: FirstAt(node.fields, "desc", b) && node.fields[b].1.JString? && |node.fields[b].1.text| < 128)
      && (exists c :: FirstAt(node.fields, "isGranted", c))
      && (exists d :: FirstAt(node.fields, "flags", d) && node.fields[d].1.JString?)
  {
    hide GetObjectItem, DecodeEntry;
    LookupMeaning(node, "name");
    LookupMeaning(node, "desc");
    LookupMeaning(node, "isGranted");
    LookupMeaning(node, "flags");
    EntryMissesField(node);
    if !Lacks(node, "name") && !Lacks(node, "desc") && !Lacks(node, "isGranted") && !Lacks(node, "flags") {
      NotLackingIsObject(node);
      var a :| FirstAt(node.fields, "name", a);
      var b :| FirstAt(node.fields, "desc", b);
      var c :| FirstAt(node.fields, "isGranted", c);
      var d :| FirstAt(node.fields, "flags", d);
      assert node == JObject(node.fields);
      EntryMeaning(node.fields, a, b, c, d);
    }
  }

  lemma NotLackingIsObject(node: Json)
    requires !Lacks(node, "name")
    ensures node.JObject?
  {
  }

  /** The client reads the same three fields with the same limits and errors, and does not look at "flags". */
  lemma ClientEntryMeaning(f: seq<(string, Json)>, a: nat, b: nat, c: nat)
    requires FirstAt(f, "name", a) && FirstAt(f, "desc", b) && FirstAt(f, "isGranted", c)
    ensures ClientEntry(JObject(f)) ==
      if !f[a].1.JString? || !f[b].1.JString? then Failure(16)
      else if |f[a].1.text| >= 64 || |f[b].1.text| >= 128 then Failure(17)
      else Success(ClientPermission(f[a].1.text, f[b].1.text, IntOf(f[c].1)))
  {
    hide GetObjectItem;
    LookupMeaning(JObject(f), "name");
    LookupMeaning(JObject(f), "desc");
    LookupMeaning(JObject(f), "isGranted");
  }

  lemma ClientEntryMissesField(node: Json)
    requires Lacks(node, "name") || Lacks(node, "desc") || Lacks(node, "isGranted")
    ensures ClientEntry(node) == Failure(16)
  {
    hide GetObjectItem;
    LookupMeaning(node, "name");
    LookupMeaning(node, "desc");
    LookupMeaning(node, "isGranted");
  }

  // ---- the whole file

  /** The server decodes the children of the first "permissions" field, in order. */
  lemma FileMeaning(f: seq<(string, Json)>, k: nat, items: seq<Json>)
    requires FirstAt(f, "permissions", k)
    requires match f[k].1
      case JArray(elements) => items == elements
      case JObject(fields) => |items| == |fields| && forall i :: 0 <= i < |items| ==> items[i] == fields[i].1
      case _ => items == []
    ensures forall ps :: Decode(JObject(f)) == Success(ps) <==>
      |ps| == |items| && forall i :: 0 <= i < |items| ==> DecodeEntry(items[i]) == Success(ps[i])
    ensures forall e :: Decode(JObject(f)) == Failure(e) <==>
      exists i :: 0 <= i < |items| && DecodeEntry(items[i]) == Failure(e) && forall j :: 0 <= j < i ==> DecodeEntry(items[j]).Success?
  {
    hide GetObjectItem, DecodeEntry;
    LookupMeaning(JObject(f), "permissions");
    assert Children(f[k].1) == items;
    DecodeUpToMeaning(items, |items|);
    var r := DecodeUpTo(items, |items|);
    forall ps | |ps| == |items| && forall i :: 0 <= i < |items| ==> DecodeEntry(items[i]) == Success(ps[i])
      ensures Decode(JObject(f)) == Success(ps)
    {
      assert r.Success? && r.value == ps;
    }
    if r.Failure? {
      var i :| 0 <= i < |items| && DecodeEntry(items[i]).Failure?;
      var first := FirstBad(items, i);
      FirstErrorReported(items, |items|, first);
    }
    forall i | 0 <= i < |items| && DecodeEntry(items[i]).Failure? && forall j :: 0 <= j < i ==> DecodeEntry(items[j]).Success?
      ensures Decode(JObject(f)) == Failure(DecodeEntry(items[i]).code)
    {
      FirstErrorReported(items, |items|, i);
    }
  }

  lemma FirstBad(items: seq<Json>, i: nat) returns (first: nat)
    requires i < |items| && DecodeEntry(items[i]).Failure?
    ensures first <= i && DecodeEntry(items[first]).Failure? && forall j :: 0 <= j < first ==> DecodeEntry(items[j]).Success?
  {
    hide DecodeEntry;
    first := 0;
    while DecodeEntry(items[first]).Success?
      invariant first <= i && forall j :: 0 <= j < first ==> DecodeEntry(items[j]).Success?
      decreases i - first
    {
      first := first + 1;
    }
  }

  /** A file without that field has no permissions, which is no error. */
  lemma FileWithoutPermissions(root: Json)
    requires Lacks(root, "permissions")
    ensures Decode(root) == Success([])
  {
    hide GetObjectItem;
    LookupMeaning(root, "permissions");
  }

  /** The client insists on an array of at most 1000 elements. */
  lemma ClientFileMeaning(f: seq<(string, Json)>, k: nat)
    requires FirstAt(f, "permissions", k)
    ensures !f[k].1.JArray? || |f[k].1.items| > 1000 ==> ClientDecode(JObject(f)) == Failure(16)
    ensures f[k].1.JArray? && |f[k].1.items| <= 1000 ==>
      forall ps :: ClientDecode(JObject(f)) == Success(ps) <==>
        |ps| == |f[k].1.items| && forall i :: 0 <= i < |ps| ==> ClientEntry(f[k].1.items[i]) == Success(ps[i])
  {
    hide GetObjectItem, ClientEntry;
    LookupMeaning(JObject(f), "permissions");
    if f[k].1.JArray? && |f[k].1.items| <= 1000 {
      var items := f[k].1.items;
      ClientUpToMeaning(items, |items|);
      var r := ClientUpTo(items, |items|);
      forall ps | |ps| == |items| && forall i :: 0 <= i < |ps| ==> ClientEntry(items[i]) == Success(ps[i])
        ensures ClientDecode(JObject(f)) == Success(ps)
      {
        assert forall i :: 0 <= i < |items| ==> ClientEntry(items[i]).Success?;
        assert r.Success? && r.value == ps;
      }
    }
  }

  lemma ClientFileWithoutPermissions(root: Json)
    requires Lacks(root, "permissions")
    ensures ClientDecode(root) == Failure(16)
  {
    hide GetObjectItem;
    LookupMeaning(root, "permissions");
  }

  lemma ClientTextMeaning(data: FileData)
    ensures ClientParse(data) == match data case Garbage => Failure(16) case Tree(root) => ClientDecode(root)
  {
  }

  /** The tree a save writes. */
  lemma EncodeMeaning(ps: seq<PermissionSaved>)
    ensures Encode(ps).JObject? && |Encode(ps).fields| == 1 && Encode(ps).fields[0].0 == "permissions"
    ensures Encode(ps).fields[0].1.JArray? && |Encode(ps).fields[0].1.items| == |ps|
    ensures forall i :: 0 <= i < |ps| ==> Encode(ps).fields[0].1.items[i] == JObject([
      ("name", JString(ps[i].name)), ("desc", JString(ps[i].desc)),
      ("isGranted", JBool(ps[i].granted != 0)), ("flags", JString(Decimal.FormatInt(ps[i].flags)))])
  {
  }

  /** What a read of a package's file gives, or why it fails. */
  lemma QueryMeaning(config: Config, files: Files, identifier: string)
    ensures
      var fails := if |config.permissionPath| + |identifier| + 1 > 1024 then Some(12)
        else if identifier !in files then Some(21)
        else if !config.validPath(config.permissionPath + identifier) then Some(24)
        else None;
      && QueryText(config, files, identifier) == (if fails.Some? then Failure(fails.value) else Success(files[identifier]))
      && Query(config, files, identifier) == (if fails.Some? then Failure(fails.value)
          else match files[identifier] case Garbage => Failure(16) case Tree(root) => Decode(root))
  {
    hide Decode;
  }
}
