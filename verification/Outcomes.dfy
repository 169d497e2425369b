/** Every call of the service in plain terms: its return code by number, and its new state field by field,
    without the definitions it is made of. */
module Outcomes {
  import opened Common
  import opened PmsTypes
  import opened PermissionCodec
  import opened Installation
  import opened PmsModel
  import opened FileSync
  import Decimal

  /** Entry i is the first one called n. */
  ghost predicate FirstNamed(ps: seq<PermissionSaved>, n: string, i: int) {
    0 <= i < |ps| && ps[i].name == n && forall j :: 0 <= j < i ==> ps[j].name != n
  }

  ghost predicate NotNamed(ps: seq<PermissionSaved>, n: string) {
    forall i :: 0 <= i < |ps| ==> ps[i].name != n
  }

  ghost predicate FirstOfUid(tasks: seq<Task>, uid: int, k: int) {
    0 <= k < |tasks| && tasks[k].uid == uid && forall j :: 0 <= j < k ==> tasks[j].uid != uid
  }

  ghost predicate NoneOfUid(tasks: seq<Task>, uid: int) {
    forall k :: 0 <= k < |tasks| ==> tasks[k].uid != uid
  }

  ghost predicate FirstOfPkg(tasks: seq<Task>, pkg: string, k: int) {
    0 <= k < |tasks| && tasks[k].pkgName == pkg && forall j :: 0 <= j < k ==> tasks[j].pkgName != pkg
  }

  ghost predicate NoneOfPkg(tasks: seq<Task>, pkg: string) {
    forall k :: 0 <= k < |tasks| ==> tasks[k].pkgName != pkg
  }

  lemma LookupsAreFirst(tasks: seq<Task>, uid: int, pkg: string)
    ensures forall k :: FirstOfUid(tasks, uid, k) <==> k == IndexOfUid(tasks, uid) && k < |tasks|
    ensures NoneOfUid(tasks, uid) <==> IndexOfUid(tasks, uid) == |tasks|
    ensures forall k :: FirstOfPkg(tasks, pkg, k) <==> k == IndexOfPkg(tasks, pkg) && k < |tasks|
    ensures NoneOfPkg(tasks, pkg) <==> IndexOfPkg(tasks, pkg) == |tasks|
  {
    hide IndexOfUid, IndexOfPkg;
  }

  lemma NameLookupIsFirst(ps: seq<PermissionSaved>, n: string)
    ensures forall i :: FirstNamed(ps, n, i) <==> i == IndexOfName(ps, n) && i < |ps|
    ensures NotNamed(ps, n) <==> IndexOfName(ps, n) == |ps|
  {
    hide IndexOfName;
  }

  // ---- checks, loads, unloads, deletes

  /** A check answers the granted value of the first entry of that name in the first task of the uid; 10
      for a negative uid, and -1 when there is no such task or entry. */
  lemma CheckOutcome(s: State, uid: int, n: string)
    ensures uid < 0 ==> CheckPermissionStat(s, uid, n) == 10
    ensures uid >= 0 && NoneOfUid(s.tasks, uid) ==> CheckPermissionStat(s, uid, n) == -1
    ensures forall k :: uid >= 0 && FirstOfUid(s.tasks, uid, k) && NotNamed(s.tasks[k].perms, n) ==>
      CheckPermissionStat(s, uid, n) == -1
    ensures forall k, i :: uid >= 0 && FirstOfUid(s.tasks, uid, k) && FirstNamed(s.tasks[k].perms, n, i) ==>
      CheckPermissionStat(s, uid, n) == s.tasks[k].perms[i].granted
  {
    hide IndexOfUid, IndexOfName;
    LookupsAreFirst(s.tasks, uid, "");
    var k := IndexOfUid(s.tasks, uid);
    if k < |s.tasks| {
      NameLookupIsFirst(s.tasks[k].perms, n);
    }
  }

  /** A load changes no file. It adds the decoded list as the first task unless the uid is negative (10) or
      loaded (0), the file is missing (0) or cannot be read (its error), or the name is too long (17). */
  lemma LoadOutcome(config: Config, s: State, identifier: string, uid: int)
    ensures
      var out := Step(config, s, Load(identifier, uid));
      var q := Query(config, s.files, identifier);
      if uid < 0 then out == Outcome(s, 10)
      else if !NoneOfUid(s.tasks, uid) then out == Outcome(s, 0)
      else if q.Failure? then out == Outcome(s, if q.code == 21 then 0 else q.code)
      else if |identifier| >= 64 then out == Outcome(s, 17)
      else out == Outcome(State([Task(uid, identifier, q.value)] + s.tasks, s.files), 0)
  {
    hide Query, IndexOfUid;
    LookupsAreFirst(s.tasks, uid, "");
  }

  /** An unload removes the first task of the uid, if there is one, and nothing else. */
  lemma UnLoadOutcome(config: Config, s: State, uid: int)
    ensures var out := Step(config, s, UnLoad(uid));
      && out.ret == 0 && out.state.files == s.files
      && (NoneOfUid(s.tasks, uid) ==> out.state.tasks == s.tasks)
      && forall k :: FirstOfUid(s.tasks, uid, k) ==> out.state.tasks == s.tasks[..k] + s.tasks[k + 1..]
  {
    hide IndexOfUid;
    LookupsAreFirst(s.tasks, uid, "");
  }

  /** A delete removes the file, present or not, unless the path is too long (12). */
  lemma DeleteOutcome(config: Config, s: State, identifier: string)
    ensures
      Step(config, s, Delete(identifier)) ==
        if |config.permissionPath| + |identifier| + 1 > 1024 then Outcome(s, 12)
        else Outcome(State(s.tasks, s.files - {identifier}), 0)
  {
  }

  // ---- grants, revokes and flags updates

  /** A change sets the one field of the first entry of that name, and nothing else. */
  lemma ChangedMeaning(ps: seq<PermissionSaved>, n: string, c: Change)
    ensures
      var qs := Changed(ps, n, c);
      |qs| == |ps| && forall i :: 0 <= i < |ps| ==>
        && qs[i].name == ps[i].name && qs[i].desc == ps[i].desc
        && qs[i].granted == (if FirstNamed(ps, n, i) && c.SetGranted? then c.granted else ps[i].granted)
        && qs[i].flags == (if FirstNamed(ps, n, i) && c.SetFlags? then c.flags else ps[i].flags)
  {
    NameLookupIsFirst(ps, n);
  }

  /** The change would alter the first entry of that name. */
  ghost predicate Alters(ps: seq<PermissionSaved>, n: string, c: Change) {
    exists i :: FirstNamed(ps, n, i) && match c case SetGranted(g) => ps[i].granted != g case SetFlags(f) => ps[i].flags != f
  }

  lemma AltersIff(ps: seq<PermissionSaved>, n: string, c: Change)
    ensures Alters(ps, n, c) <==> Changed(ps, n, c) != ps
  {
    NameLookupIsFirst(ps, n);
    ChangedMeaning(ps, n, c);
    var qs := Changed(ps, n, c);
    if qs != ps {
      var i :| 0 <= i < |ps| && qs[i] != ps[i];
      assert FirstNamed(ps, n, i);
    }
  }

  /** What a list reads as after a change of it was written: the one field of the first entry of that name
      has the new value, every other granted value is reduced to 0 or 1, and nothing else differs. */
  ghost predicate ReadsChanged(ps: seq<PermissionSaved>, qs: seq<PermissionSaved>, n: string, c: Change) {
    |qs| == |ps| && forall i :: 0 <= i < |ps| ==>
      && qs[i].name == ps[i].name && qs[i].desc == ps[i].desc
      && qs[i].granted == (if FirstNamed(ps, n, i) && c.SetGranted? then c.granted else if ps[i].granted == 0 then 0 else 1)
      && qs[i].flags == (if FirstNamed(ps, n, i) && c.SetFlags? then c.flags else ps[i].flags)
  }

  /** The file side of a grant, revoke or flags update of a readable file: no other file changes, and this
      one reads as the changed list, or is left alone when there is nothing to alter. */
  lemma SyncMeaning(config: Config, files: Files, identifier: string, n: string, c: Change)
    requires Query(config, files, identifier).Success?
    ensures
      var ps := Query(config, files, identifier).value;
      var after := Synced(config, files, identifier, n, c);
      && (forall id :: id != identifier ==> (id in after <==> id in files) && (id in after ==> after[id] == files[id]))
      && (!Alters(ps, n, c) ==> after == files)
      && (Alters(ps, n, c) ==>
            Query(config, after, identifier).Success? && ReadsChanged(ps, Query(config, after, identifier).value, n, c))
  {
    hide Query, Encode, Changed;
    var ps := Query(config, files, identifier).value;
    SyncReadsAs(config, files, identifier, n, c);
    AltersIff(ps, n, c);
    ChangedMeaning(ps, n, c);
  }

  /** A flags update to 0 or 2 is that; any other value is refused (10), an unreadable file reported. */
  lemma FlagsOutcome(config: Config, s: State, identifier: string, n: string, f: int32)
    ensures
      var out := Step(config, s, UpdateFlags(identifier, n, f));
      var q := Query(config, s.files, identifier);
      if f != 0 && f != 2 then out == Outcome(s, 10)
      else if q.Failure? then out == Outcome(s, q.code)
      else
        && out.ret == 0 && out.state.tasks == s.tasks
        && FileUpdated(config, s.files, out.state.files, identifier, n, SetFlags(f))
  {
    hide Query, Synced, Alters;
    if Query(config, s.files, identifier).Success? {
      SyncMeaning(config, s.files, identifier, n, SetFlags(f));
    }
  }

  /** What SyncMeaning says of the files before and after. */
  ghost predicate FileUpdated(config: Config, files: Files, files': Files, identifier: string, n: string, c: Change) {
    var q, q' := Query(config, files, identifier), Query(config, files', identifier);
    && q.Success? && q'.Success?
    && (forall id :: id != identifier ==> (id in files' <==> id in files) && (id in files' ==> files'[id] == files[id]))
    && (if Alters(q.value, n, c) then ReadsChanged(q.value, q'.value, n, c) else files' == files)
  }

  /** Only task k differs, and only in the granted value of its first entry called n. */
  ghost predicate TaskGranted(tasks: seq<Task>, tasks': seq<Task>, k: int, n: string, g: int) {
    && |tasks'| == |tasks| && 0 <= k < |tasks|
    && (forall j :: 0 <= j < |tasks| && j != k ==> tasks'[j] == tasks[j])
    && tasks'[k].uid == tasks[k].uid && tasks'[k].pkgName == tasks[k].pkgName
    && var ps, qs := tasks[k].perms, tasks'[k].perms;
    && |qs| == |ps|
    && forall i :: 0 <= i < |ps| ==> qs[i] == if FirstNamed(ps, n, i) then ps[i].(granted := g) else ps[i]
  }

  lemma ModifiedMeaning(tasks: seq<Task>, k: nat, n: string, g: Status)
    requires k < |tasks|
    ensures TaskGranted(tasks, Modified(tasks, k, n, g), k, n, g)
  {
    ChangedMeaning(tasks[k].perms, n, SetGranted(g));
    var ps, qs := tasks[k].perms, Changed(tasks[k].perms, n, SetGranted(g));
    forall i | 0 <= i < |ps| ensures qs[i] == if FirstNamed(ps, n, i) then ps[i].(granted := g) else ps[i] {}
  }

  /** The part of a grant that both kinds share, once the task is found. */
  ghost predicate GrantedOnTask(config: Config, s: State, out: Outcome, k: int, n: string, g: Status)
    requires 0 <= k < |s.tasks|
  {
    var pkg := s.tasks[k].pkgName;
    var q := Query(config, s.files, pkg);
    if NotNamed(s.tasks[k].perms, n) then out == Outcome(s, 19)
    else
      && TaskGranted(s.tasks, out.state.tasks, k, n, g)
      && (q.Failure? ==> out.state.files == s.files && out.ret == q.code)
      && (q.Success? ==> out.ret == 0 && FileUpdated(config, s.files, out.state.files, pkg, n, SetGranted(g)))
  }

  lemma GrantOnTaskOutcome(config: Config, s: State, k: nat, n: string, g: Status)
    requires k < |s.tasks|
    ensures
      var out := if !Names(s.tasks[k], n) then Outcome(s, PERM_NOT_EXIST)
        else SyncStep(config, s.(tasks := Modified(s.tasks, k, n, g)), s.tasks[k].pkgName, n, SetGranted(g));
      GrantedOnTask(config, s, out, k, n, g)
  {
    hide Query, Synced, Alters, Modified, TaskGranted;
    NameLookupIsFirst(s.tasks[k].perms, n);
    ModifiedMeaning(s.tasks, k, n, g);
    if Query(config, s.files, s.tasks[k].pkgName).Success? {
      SyncMeaning(config, s.files, s.tasks[k].pkgName, n, SetGranted(g));
    }
  }

  /** A grant or revoke by package name: on the first task of the package, if it is loaded; then the file. */
  lemma GrantOutcome(config: Config, s: State, identifier: string, n: string, g: Status)
    ensures
      var out := Step(config, s, Grant(identifier, n, g));
      var q := Query(config, s.files, identifier);
      && (NoneOfPkg(s.tasks, identifier) && q.Failure? ==> out == Outcome(s, q.code))
      && (NoneOfPkg(s.tasks, identifier) && q.Success? ==>
            out.ret == 0 && out.state.tasks == s.tasks && FileUpdated(config, s.files, out.state.files, identifier, n, SetGranted(g)))
      && forall k :: FirstOfPkg(s.tasks, identifier, k) ==> GrantedOnTask(config, s, out, k, n, g)
  {
    hide Query, Synced, Alters, Modified, GrantedOnTask, IndexOfPkg;
    LookupsAreFirst(s.tasks, 0, identifier);
    var k := IndexOfPkg(s.tasks, identifier);
    if k < |s.tasks| {
      GrantOnTaskOutcome(config, s, k, n, g);
    } else if Query(config, s.files, identifier).Success? {
      SyncMeaning(config, s.files, identifier, n, SetGranted(g));
    }
  }

  /** A grant or revoke by uid: on the first task of the uid and its package's file; 26 when there is none. */
  lemma GrantRuntimeOutcome(config: Config, s: State, uid: int, n: string, g: Status)
    ensures
      var out := Step(config, s, GrantRuntime(uid, n, g));
      && (NoneOfUid(s.tasks, uid) ==> out == Outcome(s, 26))
      && forall k :: FirstOfUid(s.tasks, uid, k) ==> GrantedOnTask(config, s, out, k, n, g)
  {
    hide Query, Synced, Modified, GrantedOnTask, IndexOfUid;
    LookupsAreFirst(s.tasks, uid, "");
    var k := IndexOfUid(s.tasks, uid);
    if k < |s.tasks| {
      GrantOnTaskOutcome(config, s, k, n, g);
    }
  }

  // ---- installs and upgrades

  /** Request j is the first one of its name. */
  ghost predicate FirstRequest(requests: seq<PermissionTrans>, j: int) {
    0 <= j < |requests| && forall i :: 0 <= i < j ==> requests[i].name != requests[j].name
  }

  /** Some request that is kept has a name or description too long for its buffer. */
  ghost predicate SomeTooLong(requests: seq<PermissionTrans>) {
    exists j :: FirstRequest(requests, j) && (|requests[j].name| > 63 || |requests[j].desc| > 127)
  }

  /** Positions: increasing, and exactly those of the first requests of a name. */
  ghost predicate KeptAt(requests: seq<PermissionTrans>, at: seq<nat>) {
    && (forall k :: 0 <= k < |at| ==> FirstRequest(requests, at[k]))
    && (forall k, l :: 0 <= k < l < |at| ==> at[k] < at[l])
    && forall j :: FirstRequest(requests, j) ==> j in at
  }

  /** Duplicate removal keeps exactly the first requests of each name. */
  lemma FirstOccurrencesMeaning(requests: seq<PermissionTrans>) returns (at: seq<nat>)
    ensures KeptAt(requests, at) && |at| == |FirstOccurrences(requests)|
    ensures forall k :: 0 <= k < |at| ==> FirstOccurrences(requests)[k] == requests[at[k]]
  {
    hide FirstOccurrences;
    var firsts := FirstOccurrences(requests);
    at := FirstOccurrencesOrder(requests);
    forall k | 0 <= k < |at| ensures FirstRequest(requests, at[k]) {
      forall i | 0 <= i < at[k] ensures requests[i].name != requests[at[k]].name {
        assert requests[..at[k]][i] == requests[i];
      }
    }
    forall j | FirstRequest(requests, j) ensures j in at {
      FirstOccurrencesNames(requests, requests[j].name);
      assert NamedIn(requests, requests[j].name);
      var k :| 0 <= k < |firsts| && firsts[k].name == requests[j].name;
      assert requests[at[k]].name == requests[j].name;
      assert at[k] == j;
    }
  }

  /** The return code of an install or upgrade, in the order of the checks; a failure changes nothing, and
      an empty request removes the file. */
  lemma SaveReturns(config: Config, s: State, identifier: string, requests: seq<PermissionTrans>, isUpdate: int)
    ensures
      var out := Step(config, s, Save(identifier, requests, isUpdate));
      var q := Query(config, s.files, identifier);
      if isUpdate != 0 && isUpdate != 1 then out == Outcome(s, 10)
      else if |requests| > config.maxPermissions then out == Outcome(s, 25)
      else if |config.permissionPath| + |identifier| + 1 > 1024 then out == Outcome(s, 12)
      else if requests == [] then out == Outcome(State(s.tasks, s.files - {identifier}), 0)
      else if isUpdate == 1 && q.Failure? && q.code != 21 then out == Outcome(s, q.code)
      else if SomeTooLong(requests) then out == Outcome(s, 18)
      else out.ret == 0 && out.state.tasks == s.tasks
  {
    hide Query, Encode, FirstOccurrences, Merged;
    FirstOccurrencesSize(requests);
    TooLongIff(requests);
  }

  lemma TooLongIff(requests: seq<PermissionTrans>)
    ensures SomeTooLong(requests) <==>
      exists i :: 0 <= i < |FirstOccurrences(requests)| && TooLong(FirstOccurrences(requests)[i])
  {
    hide FirstOccurrences;
    var at := FirstOccurrencesMeaning(requests);
    var firsts := FirstOccurrences(requests);
    if SomeTooLong(requests) {
      var j :| FirstRequest(requests, j) && (|requests[j].name| > 63 || |requests[j].desc| > 127);
      var k :| 0 <= k < |at| && at[k] == j;
      assert TooLong(firsts[k]);
    }
    if i :| 0 <= i < |firsts| && TooLong(firsts[i]) {
      assert FirstRequest(requests, at[i]);
    }
  }

  /** The list an upgrade starts from: the file's, and nothing for a fresh install or a missing file. */
  ghost function OldList(config: Config, files: Files, identifier: string, isUpdate: int): seq<PermissionSaved> {
    var q := Query(config, files, identifier);
    if isUpdate == 1 && q.Success? then q.value else []
  }

  /** The granted value an entry is written with: that of the last old entry of the name, and when there is
      none, whether the first catalogue entry of the name is a system grant. */
  ghost predicate WrittenGranted(catalogue: seq<PermissionDef>, old': seq<PermissionSaved>, name: string, b: bool) {
    && (NotNamed(old', name) ==>
          (b <==> exists k :: 0 <= k < |catalogue| && catalogue[k].name == name && catalogue[k].kind == SYSTEM_GRANT
                              && forall j :: 0 <= j < k ==> catalogue[j].name != name))
    && forall i :: 0 <= i < |old'| && old'[i].name == name && NotNamed(old'[i + 1..], name) ==> (b <==> old'[i].granted != 0)
  }

  /** The tree a successful install or upgrade writes, whatever was on file: one object per first request of
      a name, in order, with default flags. No other file changes. */
  lemma SaveStores(config: Config, s: State, identifier: string, requests: seq<PermissionTrans>, isUpdate: int)
    returns (at: seq<nat>, granted: seq<bool>)
    requires requests != [] && Step(config, s, Save(identifier, requests, isUpdate)).ret == 0
    ensures KeptAt(requests, at) && |granted| == |at|
    ensures
      var items := seq(|at|, k requires 0 <= k < |at| => JObject([
        ("name", JString(requests[at[k]].name)), ("desc", JString(requests[at[k]].desc)),
        ("isGranted", JBool(granted[k])), ("flags", JString("0"))]));
      Step(config, s, Save(identifier, requests, isUpdate)).state
      == State(s.tasks, s.files[identifier := Tree(JObject([("permissions", JArray(items))]))])
    ensures forall k :: 0 <= k < |at| ==>
      WrittenGranted(config.catalogue, OldList(config, s.files, identifier, isUpdate), requests[at[k]].name, granted[k])
  {
    hide Query, FirstOccurrences, Inherited, DefaultGranted, WrittenGranted;
    at := FirstOccurrencesMeaning(requests);
    FirstOccurrencesSize(requests);
    var firsts, stored := FirstOccurrences(requests), OldPermissions(config, s.files, identifier, isUpdate).value;
    var list := Merged(config.catalogue, stored, firsts);
    granted := seq(|at|, k requires 0 <= k < |at| => list[k].granted != 0);
    forall k | 0 <= k < |at|
      ensures WrittenGranted(config.catalogue, stored, requests[at[k]].name, granted[k])
    {
      InheritedGranted(config.catalogue, stored, firsts[k].name);
    }
    assert Decimal.FormatInt(0) == "0" by { ZeroText(); }
    var items := seq(|at|, k requires 0 <= k < |at| => JObject([
      ("name", JString(requests[at[k]].name)), ("desc", JString(requests[at[k]].desc)),
      ("isGranted", JBool(granted[k])), ("flags", JString("0"))]));
    forall k | 0 <= k < |at| ensures EncodeEntry(list[k]) == items[k] {}
    assert EncodeEntries(list) == items;
  }

  lemma ZeroText()
    ensures Decimal.FormatInt(0) == "0"
  {
  }

  lemma InheritedGranted(catalogue: seq<PermissionDef>, stored: seq<PermissionSaved>, name: string)
    ensures WrittenGranted(catalogue, stored, name, Inherited(stored, |stored|, name, DefaultGranted(catalogue, name)) != 0)
  {
    hide DefaultGranted, Inherited, NotNamed, SystemGranted;
    var default := DefaultGranted(catalogue, name);
    DefaultGrantedMeaning(catalogue, name);
    SystemGrantedIff(catalogue, name);
    if NotNamed(stored, name) {
      NothingInherited(stored, name, default);
    }
    forall i | 0 <= i < |stored| && stored[i].name == name && NotNamed(stored[i + 1..], name)
      ensures Inherited(stored, |stored|, name, default) == stored[i].granted
    {
      LastIsInherited(stored, name, default, i);
    }
  }

  lemma SystemGrantedIff(catalogue: seq<PermissionDef>, name: string)
    ensures SystemGranted(catalogue, name) <==>
      exists k :: 0 <= k < |catalogue| && catalogue[k].name == name && catalogue[k].kind == SYSTEM_GRANT
                  && forall j :: 0 <= j < k ==> catalogue[j].name != name
  {
  }

  lemma NothingInherited(stored: seq<PermissionSaved>, name: string, default: int)
    requires NotNamed(stored, name)
    ensures Inherited(stored, |stored|, name, default) == default
  {
    hide Inherited;
    InheritedMeaning(stored, |stored|, name, default);
  }

  lemma LastIsInherited(stored: seq<PermissionSaved>, name: string, default: int, i: nat)
    requires i < |stored| && stored[i].name == name && NotNamed(stored[i + 1..], name)
    ensures Inherited(stored, |stored|, name, default) == stored[i].granted
  {
    hide Inherited;
    InheritedMeaning(stored, |stored|, name, default);
    var rest := stored[i + 1..];
    assert forall j :: i < j < |stored| ==> stored[j] == rest[j - i - 1];
  }
}
