/** QueryAppCapabilities: the kernel capabilities bound to a package's permissions. */
module Capabilities {
  import opened Common
  import opened PmsTypes
  import opened PmsModel
  import opened HalModel
  import opened PermissionFile

  /** The capability of the first catalogue entry of that name that has one. */
  function CapOf(catalogue: seq<PermissionDef>, name: string): Option<uint32> {
    var i := FirstIndex(catalogue, (d: PermissionDef) => d.name == name && d.cap != CAP_NOT_BINDED);
    if i < |catalogue| then Some(catalogue[i].cap) else None
  }

  /** c is the capability of the first catalogue entry of that name that has one; all ones is none. */
  ghost predicate BoundTo(catalogue: seq<PermissionDef>, name: string, c: uint32) {
    exists k :: 0 <= k < |catalogue| && catalogue[k].name == name && catalogue[k].cap == c && c != 0xFFFF_FFFF
                && forall j :: 0 <= j < k ==> catalogue[j].name != name || catalogue[j].cap == 0xFFFF_FFFF
  }

  lemma CapOfMeaning(catalogue: seq<PermissionDef>, name: string)
    ensures forall c: uint32 :: CapOf(catalogue, name) == Some(c) <==> BoundTo(catalogue, name, c)
    ensures CapOf(catalogue, name).None? <==> forall k :: 0 <= k < |catalogue| && catalogue[k].name == name ==> catalogue[k].cap == 0xFFFF_FFFF
  {
    hide FirstIndex;
    var i := FirstIndex(catalogue, (d: PermissionDef) => d.name == name && d.cap != CAP_NOT_BINDED);
    forall c: uint32 | BoundTo(catalogue, name, c) ensures CapOf(catalogue, name) == Some(c) {
      var k :| 0 <= k < |catalogue| && catalogue[k].name == name && catalogue[k].cap == c && c != 0xFFFF_FFFF
               && forall j :: 0 <= j < k ==> catalogue[j].name != name || catalogue[j].cap == 0xFFFF_FFFF;
      assert i == k;
    }
    if i < |catalogue| {
      assert BoundTo(catalogue, name, catalogue[i].cap);
    }
  }

  /** The capabilities of the first n permissions, in order; a permission without one adds nothing. */
  function CapsOf(catalogue: seq<PermissionDef>, ps: seq<PermissionSaved>, n: nat): (r: seq<uint32>)
    requires n <= |ps|
    ensures |r| <= n
  {
    if n == 0 then []
    else
      var c := CapOf(catalogue, ps[n - 1].name);
      CapsOf(catalogue, ps, n - 1) + if c.Some? then [c.value] else []
  }

  /** cs are the capabilities of the permissions at positions `at`: increasing, and all those below n
      whose permission has a capability. */
  ghost predicate Picks(catalogue: seq<PermissionDef>, ps: seq<PermissionSaved>, n: nat, cs: seq<uint32>, at: seq<nat>)
    requires n <= |ps|
  {
    && |at| == |cs|
    && (forall k :: 0 <= k < |at| ==> at[k] < n && BoundTo(catalogue, ps[at[k]].name, cs[k]))
    && (forall k, l :: 0 <= k < l < |at| ==> at[k] < at[l])
    && (forall i, c: uint32 :: 0 <= i < n && BoundTo(catalogue, ps[i].name, c) ==> i in at)
  }

  lemma PicksOneMore(catalogue: seq<PermissionDef>, ps: seq<PermissionSaved>, n: nat, cs: seq<uint32>, at: seq<nat>)
    requires n < |ps| && Picks(catalogue, ps, n, cs, at)
    ensures
      match CapOf(catalogue, ps[n].name)
      case None => Picks(catalogue, ps, n + 1, cs, at)
      case Some(c) => Picks(catalogue, ps, n + 1, cs + [c], at + [n])
  {
    hide CapOf, BoundTo;
    CapOfMeaning(catalogue, ps[n].name);
  }

  lemma PicksNone(catalogue: seq<PermissionDef>, ps: seq<PermissionSaved>)
    ensures Picks(catalogue, ps, 0, CapsOf(catalogue, ps, 0), [])
  {
    hide CapOf;
  }

  lemma CapsOfOneMore(catalogue: seq<PermissionDef>, ps: seq<PermissionSaved>, n: nat)
    requires n < |ps|
    ensures CapsOf(catalogue, ps, n + 1) ==
      match CapOf(catalogue, ps[n].name)
      case None => CapsOf(catalogue, ps, n)
      case Some(c) => CapsOf(catalogue, ps, n) + [c]
  {
    hide CapOf;
  }

  /** The list picks exactly the permissions that have a capability, in file order. */
  lemma {:induction false} CapsOfMeaning(catalogue: seq<PermissionDef>, ps: seq<PermissionSaved>, n: nat) returns (at: seq<nat>)
    requires n <= |ps|
    ensures Picks(catalogue, ps, n, CapsOf(catalogue, ps, n), at)
  {
    hide CapOf, CapsOf, Picks;
    if n == 0 {
      at := [];
      PicksNone(catalogue, ps);
    } else {
      at := CapsOfMeaning(catalogue, ps, n - 1);
      CapsOfOneMore(catalogue, ps, n - 1);
      PicksOneMore(catalogue, ps, n - 1, CapsOf(catalogue, ps, n - 1), at);
      if CapOf(catalogue, ps[n - 1].name).Some? {
        at := at + [n - 1];
      }
    }
  }

  /** No capability in the list is the marker for none. */
  lemma PickedAreBound(catalogue: seq<PermissionDef>, ps: seq<PermissionSaved>, cs: seq<uint32>, at: seq<nat>)
    requires Picks(catalogue, ps, |ps|, cs, at)
    ensures 0xFFFF_FFFF !in cs
  {
  }

  /** caps and capNum as the caller sees them: untouched (null and 0) when there is no capability. */
  ghost predicate ListsCaps(caps: array?<uint32>, capNum: int, cs: seq<uint32>)
    reads caps
  {
    capNum == |cs| && if caps == null then cs == [] else caps[..] == cs && cs != []
  }

  /** The inner loop over the catalogue for one permission. */
  method FindCap(hal: Hal, name: string) returns (c: Option<uint32>)
    ensures c == CapOf(hal.config.catalogue, name)
    ensures forall x: uint32 :: c == Some(x) <==> BoundTo(hal.config.catalogue, name, x)
  {
    hide BoundTo;
    CapOfMeaning(hal.config.catalogue, name);
    var permList := hal.config.catalogue;
    var i := 0;
    while i < |permList|
      invariant 0 <= i <= |permList|
      invariant forall k :: 0 <= k < i ==> !(permList[k].name == name && permList[k].cap != CAP_NOT_BINDED)
    {
      if name != permList[i].name || permList[i].cap == CAP_NOT_BINDED {
        i := i + 1;
        continue;
      }
      return Some(permList[i].cap);
    }
    return None;
  }

  /** Collects the capabilities into the front of an array with one slot per permission. */
  method CollectCaps(hal: Hal, permissions: array<PermissionSaved>, capsBinded: array<uint32>) returns (index: int)
    requires capsBinded.Length == permissions.Length
    modifies capsBinded
    ensures 0 <= index <= capsBinded.Length
    ensures capsBinded[..index] == CapsOf(hal.config.catalogue, permissions[..], permissions.Length)
  {
    hide CapOf;
    index := 0;
    ghost var ps := permissions[..];
    var j := 0;
    while j < permissions.Length
      invariant 0 <= index <= j <= permissions.Length
      invariant capsBinded[..index] == CapsOf(hal.config.catalogue, ps, j)
    {
      var c := FindCap(hal, permissions[j].name);
      if c.Some? {
        capsBinded[index] := c.value;
        assert capsBinded[..index + 1] == capsBinded[..index] + [c.value];
        index := index + 1;
      }
      j := j + 1;
    }
  }

  method QueryAppCapabilities(hal: Hal, identifier: string) returns (ret: int, caps: array?<uint32>, capNum: int)
    requires FilesFit(hal.files)
    modifies hal`live
    ensures hal.live == old(hal.live) + Given(caps) && (caps != null ==> fresh(caps))
    ensures ret == SUCCESS ==>
      var q := Query(hal.config, hal.files, identifier);
      q.Success? && ListsCaps(caps, capNum, CapsOf(hal.config.catalogue, q.value, |q.value|))
    ensures ret == SUCCESS ==>
      var ps := Query(hal.config, hal.files, identifier).value;
      exists cs, at :: Picks(hal.config.catalogue, ps, |ps|, cs, at) && ListsCaps(caps, capNum, cs)
    ensures caps != null ==> forall i :: 0 <= i < caps.Length ==> caps[i] != 0xFFFF_FFFF
    ensures ret != SUCCESS ==> caps == null && capNum == 0
    ensures hal.reliable ==>
      match Query(hal.config, hal.files, identifier)
      case Failure(e) => ret == e
      case Success(_) => ret == SUCCESS
  {
    hide Query, FilesFit, CapOf, CapsOf, Picks;
    caps, capNum := null, 0;
    var permissions, permNum;
    ret, permissions, permNum := QueryPermission(hal, identifier);
    if ret != SUCCESS {
      return ret, null, 0;
    }
    ghost var ps := Query(hal.config, hal.files, identifier).value;
    ghost var at := CapsOfMeaning(hal.config.catalogue, ps, |ps|);
    PickedAreBound(hal.config.catalogue, ps, CapsOf(hal.config.catalogue, ps, |ps|), at);
    if permNum == 0 {
      hal.Free(permissions);
      return SUCCESS, null, 0;
    }
    var capsBinded := new uint32[permNum](_ => 0);
    var ok := hal.Malloc(capsBinded);
    if !ok {
      hal.Free(permissions);
      return MALLOC_FAIL, null, 0;
    }
    var index := CollectCaps(hal, permissions, capsBinded);
    hal.Free(permissions);
    if index == 0 {
      hal.Free(capsBinded);
      return SUCCESS, null, 0;
    }
    caps := new uint32[index](_ => 0);
    ok := hal.Malloc(caps);
    if !ok {
      hal.Free(capsBinded);
      return MALLOC_FAIL, null, 0;
    }
    var k := 0;
    while k < index
      invariant 0 <= k <= index
      invariant caps[..k] == capsBinded[..k]
      modifies caps
    {
      caps[k] := capsBinded[k];
      k := k + 1;
    }
    assert caps[..] == caps[..index];
    hal.Free(capsBinded);
    return SUCCESS, caps, index;
  }
}
