/** What an install or an upgrade asks for and what it becomes: duplicate removal and the merge
    with the permissions already on file. */
module Installation {
  import opened Common
  import opened PmsTypes

  // ---- duplicates

  predicate NamedIn(s: seq<PermissionTrans>, name: string) {
    exists i :: 0 <= i < |s| && s[i].name == name
  }

  /** The requests whose name no earlier request has, in order. */
  function FirstOccurrences(s: seq<PermissionTrans>): seq<PermissionTrans> {
    if s == [] then []
    else
      var front := s[..|s| - 1];
      var last := s[|s| - 1];
      FirstOccurrences(front) + if NamedIn(front, last.name) then [] else [last]
  }

  /** Strictly increasing positions of r's elements in s, each the first one with its name. */
  ghost predicate PicksFirsts(s: seq<PermissionTrans>, r: seq<PermissionTrans>, at: seq<nat>) {
    && |at| == |r|
    && (forall k :: 0 <= k < |r| ==> at[k] < |s| && s[at[k]] == r[k] && !NamedIn(s[..at[k]], r[k].name))
    && (forall k, l :: 0 <= k < l < |r| ==> at[k] < at[l])
  }

  lemma NamedInAppend(s: seq<PermissionTrans>, p: PermissionTrans, name: string)
    ensures NamedIn(s + [p], name) <==> NamedIn(s, name) || p.name == name
  {
    if NamedIn(s, name) {
      var i :| 0 <= i < |s| && s[i].name == name;
      assert (s + [p])[i].name == name;
    }
    assert (s + [p])[|s|] == p;
  }

  /** Duplicate removal loses no name and adds none. */
  lemma {:induction false} FirstOccurrencesNames(s: seq<PermissionTrans>, name: string)
    ensures NamedIn(FirstOccurrences(s), name) <==> NamedIn(s, name)
  {
    if s == [] {
    } else {
      var front, last := s[..|s| - 1], s[|s| - 1];
      assert s == front + [last];
      FirstOccurrencesNames(front, name);
      NamedInAppend(front, last, name);
      if NamedIn(front, last.name) {
        assert FirstOccurrences(s) == FirstOccurrences(front);
      } else {
        NamedInAppend(FirstOccurrences(front), last, name);
      }
    }
  }

  /** Duplicate removal leaves one request per name. */
  lemma {:induction false} FirstOccurrencesDistinct(s: seq<PermissionTrans>)
    ensures forall k, l :: 0 <= k < l < |FirstOccurrences(s)| ==>
      FirstOccurrences(s)[k].name != FirstOccurrences(s)[l].name
  {
    if s == [] {
    } else {
      var front, last := s[..|s| - 1], s[|s| - 1];
      FirstOccurrencesDistinct(front);
      FirstOccurrencesNames(front, last.name);
    }
  }

  /** Duplicate removal keeps the first request of each name, in the original order. */
  lemma {:induction false} FirstOccurrencesOrder(s: seq<PermissionTrans>) returns (at: seq<nat>)
    ensures PicksFirsts(s, FirstOccurrences(s), at)
  {
    if s == [] {
      at := [];
    } else {
      var front, last := s[..|s| - 1], s[|s| - 1];
      at := FirstOccurrencesOrder(front);
      assert s == front + [last];
      PicksFirstsOfPrefix(front, last, FirstOccurrences(front), at);
      if !NamedIn(front, last.name) {
        assert FirstOccurrences(s) == FirstOccurrences(front) + [last];
        at := at + [|front|];
        assert s[..|front|] == front;
      } else {
        assert FirstOccurrences(s) == FirstOccurrences(front);
      }
    }
  }

  lemma PicksFirstsOfPrefix(s: seq<PermissionTrans>, p: PermissionTrans, r: seq<PermissionTrans>, at: seq<nat>)
    requires PicksFirsts(s, r, at)
    ensures PicksFirsts(s + [p], r, at)
  {
    forall k | 0 <= k < |r| ensures (s + [p])[..at[k]] == s[..at[k]] {}
  }

  lemma {:induction false} FirstOccurrencesSize(s: seq<PermissionTrans>)
    ensures |FirstOccurrences(s)| <= |s| && (s != [] ==> FirstOccurrences(s) != [])
  {
    if s == [] {
    } else {
      FirstOccurrencesSize(s[..|s| - 1]);
      assert |s| == 1 ==> !NamedIn(s[..|s| - 1], s[|s| - 1].name);
    }
  }

  // ---- merging

  predicate TooLong(p: PermissionTrans) {
    |p.name| > PERM_NAME_LEN - 1 || |p.desc| > PERM_DESC_LEN - 1
  }

  /** GetPermissionType: the type of the first catalogue entry of that name. */
  function CatalogueType(catalogue: seq<PermissionDef>, name: string): Option<GrantType> {
    var i := FirstIndex(catalogue, (d: PermissionDef) => d.name == name);
    if i < |catalogue| then Some(catalogue[i].kind) else None
  }

  /** The first catalogue entry of that name is a system grant. */
  ghost predicate SystemGranted(catalogue: seq<PermissionDef>, name: string) {
    exists k :: 0 <= k < |catalogue| && catalogue[k].name == name && catalogue[k].kind == SYSTEM_GRANT
                && forall j :: 0 <= j < k ==> catalogue[j].name != name
  }

  /** The default is 1 for a system grant, and 0 for a user grant and for a name not in the catalogue. */
  lemma DefaultGrantedMeaning(catalogue: seq<PermissionDef>, name: string)
    ensures DefaultGranted(catalogue, name) == if SystemGranted(catalogue, name) then 1 else 0
  {
    hide FirstIndex;
    var i := FirstIndex(catalogue, (d: PermissionDef) => d.name == name);
    if i < |catalogue| && catalogue[i].kind == SYSTEM_GRANT {
      assert SystemGranted(catalogue, name);
    }
  }

  function DefaultGranted(catalogue: seq<PermissionDef>, name: string): int {
    if CatalogueType(catalogue, name) == Some(SYSTEM_GRANT) then GRANTED else NOT_GRANTED
  }

  /** Granted value after the inner loop has looked at the first n old entries: the last match wins. */
  function Inherited(stored: seq<PermissionSaved>, n: nat, name: string, default: int): int
    requires n <= |stored|
  {
    if n == 0 then default
    else if stored[n - 1].name == name then stored[n - 1].granted
    else Inherited(stored, n - 1, name, default)
  }

  function MergedEntry(catalogue: seq<PermissionDef>, stored: seq<PermissionSaved>, p: PermissionTrans): PermissionSaved {
    PermissionSaved(p.name, p.desc,
      Inherited(stored, |stored|, p.name, DefaultGranted(catalogue, p.name)), PMS_FLAG_DEFAULT)
  }

  /** The list an install of `requests` over the list `stored` writes. */
  function Merged(catalogue: seq<PermissionDef>, stored: seq<PermissionSaved>, requests: seq<PermissionTrans>)
    : seq<PermissionSaved>
  {
    seq(|requests|, i requires 0 <= i < |requests| => MergedEntry(catalogue, stored, requests[i]))
  }

  lemma {:induction false} InheritedMeaning(stored: seq<PermissionSaved>, n: nat, name: string, default: int)
    requires n <= |stored|
    ensures (forall i :: 0 <= i < n ==> stored[i].name != name) ==> Inherited(stored, n, name, default) == default
    ensures (exists i :: 0 <= i < n && stored[i].name == name) ==>
      exists i :: 0 <= i < n && stored[i].name == name && Inherited(stored, n, name, default) == stored[i].granted
                  && forall j :: i < j < n ==> stored[j].name != name
  {
    if n == 0 || stored[n - 1].name == name {
    } else {
      InheritedMeaning(stored, n - 1, name, default);
    }
  }

  /** With one entry per name on file, the inherited value is the one every lookup answers with. */
  lemma InheritedIsLookup(stored: seq<PermissionSaved>, name: string, default: int)
    requires DistinctNames(stored)
    ensures Inherited(stored, |stored|, name, default) ==
      if IndexOfName(stored, name) < |stored| then GrantedOf(stored, name) else default
  {
    InheritedMeaning(stored, |stored|, name, default);
    var k := IndexOfName(stored, name);
    if k < |stored| {
      assert stored[k].name == name;
    }
  }
}
