/** The task list as a map from uid to task, and the calls as updates of that map. */
module TaskMap {
  import opened PmsTypes
  import opened PmsModel
  import opened Coherence

  /** Each uid with its first task. */
  function AsMap(tasks: seq<Task>): map<int, Task> {
    if tasks == [] then map[] else AsMap(tasks[1..])[tasks[0].uid := tasks[0]]
  }

  /** Lookups by uid are lookups in the map. */
  lemma {:induction false} LookupIsMapLookup(tasks: seq<Task>, uid: int)
    ensures uid in AsMap(tasks) <==> IndexOfUid(tasks, uid) < |tasks|
    ensures uid in AsMap(tasks) ==> AsMap(tasks)[uid] == tasks[IndexOfUid(tasks, uid)]
  {
    if tasks == [] {
    } else {
      LookupIsMapLookup(tasks[1..], uid);
      if tasks[0].uid != uid {
        IndexAfterFirst(tasks, uid);
      }
    }
  }

  lemma IndexAfterFirst(tasks: seq<Task>, uid: int)
    requires tasks != [] && tasks[0].uid != uid
    ensures IndexOfUid(tasks, uid) == IndexOfUid(tasks[1..], uid) + 1
  {
    hide IndexOfUid;
    var i, j := IndexOfUid(tasks, uid), IndexOfUid(tasks[1..], uid);
    assert j < |tasks[1..]| ==> tasks[1..][j] == tasks[j + 1];
    if i < |tasks| {
      assert tasks[1..][i - 1] == tasks[i];
    }
    assert forall m :: 0 <= m < j ==> tasks[1..][m] == tasks[m + 1];
    assert forall m :: 1 <= m < i ==> tasks[1..][m - 1] == tasks[m];
  }

  lemma MapOfNewTask(tasks: seq<Task>, t: Task)
    ensures AsMap([t] + tasks) == AsMap(tasks)[t.uid := t]
  {
    assert ([t] + tasks)[1..] == tasks;
  }

  /** Deleting a task removes exactly its uid from the map. */
  lemma MapOfWithoutUid(tasks: seq<Task>, uid: int)
    requires OneTaskPerUid(tasks)
    ensures AsMap(WithoutUid(tasks, uid)) == AsMap(tasks) - {uid}
  {
    hide IndexOfUid, AsMap;
    var rest := WithoutUid(tasks, uid);
    var k := IndexOfUid(tasks, uid);
    forall u
      ensures u in AsMap(rest) <==> u in AsMap(tasks) - {uid}
      ensures u in AsMap(rest) ==> AsMap(rest)[u] == AsMap(tasks)[u]
    {
      LookupIsMapLookup(tasks, u);
      LookupIsMapLookup(rest, u);
      LookupAfterRemoval(tasks, uid, u);
    }
  }

  lemma LookupAfterRemoval(tasks: seq<Task>, uid: int, u: int)
    requires OneTaskPerUid(tasks)
    ensures
      var rest := WithoutUid(tasks, uid);
      var i, j := IndexOfUid(tasks, u), IndexOfUid(rest, u);
      if u == uid || i == |tasks| then j == |rest| else i < |tasks| && j < |rest| && rest[j] == tasks[i]
  {
    hide IndexOfUid;
    var k, rest := IndexOfUid(tasks, uid), WithoutUid(tasks, uid);
    var i, j := IndexOfUid(tasks, u), IndexOfUid(rest, u);
    forall m | 0 <= m < |rest| ensures rest[m] == tasks[if m < k then m else m + 1] {}
    if u != uid && i < |tasks| {
      assert rest[if i < k then i else i - 1] == tasks[i];
    }
  }

  lemma SameUidsSameIndex(tasks: seq<Task>, tasks': seq<Task>, u: int)
    requires |tasks| == |tasks'| && forall m :: 0 <= m < |tasks| ==> tasks[m].uid == tasks'[m].uid
    ensures IndexOfUid(tasks, u) == IndexOfUid(tasks', u)
  {
    hide IndexOfUid;
    var i, j := IndexOfUid(tasks, u), IndexOfUid(tasks', u);
  }

  /** Changing a task's permissions changes exactly that uid's entry. */
  lemma MapOfModified(tasks: seq<Task>, k: nat, permName: string, granted: Status)
    requires OneTaskPerUid(tasks) && k < |tasks|
    ensures AsMap(Modified(tasks, k, permName, granted)) == AsMap(tasks)[tasks[k].uid := Modified(tasks, k, permName, granted)[k]]
  {
    hide IndexOfUid, AsMap, Changed;
    var tasks' := Modified(tasks, k, permName, granted);
    var target := AsMap(tasks)[tasks[k].uid := tasks'[k]];
    forall u
      ensures u in AsMap(tasks') <==> u in target
      ensures u in AsMap(tasks') ==> AsMap(tasks')[u] == target[u]
    {
      LookupIsMapLookup(tasks, u);
      LookupIsMapLookup(tasks', u);
      SameUidsSameIndex(tasks, tasks', u);
    }
  }

  /** The map after a call, in terms of the map and the files before it. */
  ghost function MapAfter(config: Config, s: State, call: Call): map<int, Task> {
    var m := AsMap(s.tasks);
    match call
    case Load(identifier, uid) =>
      var q := Query(config, s.files, identifier);
      if uid < 0 || uid in m || q.Failure? || |identifier| >= PKG_NAME_LEN then m
      else m[uid := Task(uid, identifier, q.value)]
    case UnLoad(uid) => m - {uid}
    case Grant(identifier, permName, granted) =>
      var k := IndexOfPkg(s.tasks, identifier);
      if k == |s.tasks| then m else Regranted(m, s.tasks[k].uid, permName, granted)
    case GrantRuntime(uid, permName, granted) => Regranted(m, uid, permName, granted)
    case _ => m
  }

  /** The map with one task's permission set; nothing happens without the task or the permission. */
  function Regranted(m: map<int, Task>, uid: int, permName: string, granted: Status): map<int, Task> {
    if uid !in m || !Names(m[uid], permName) then m
    else m[uid := m[uid].(perms := Changed(m[uid].perms, permName, SetGranted(granted)))]
  }

  lemma RegrantedIsModified(tasks: seq<Task>, k: nat, permName: string, granted: Status)
    requires OneTaskPerUid(tasks) && k < |tasks|
    ensures Regranted(AsMap(tasks), tasks[k].uid, permName, granted)
      == if Names(tasks[k], permName) then AsMap(Modified(tasks, k, permName, granted)) else AsMap(tasks)
  {
    hide AsMap, Changed, IndexOfName;
    UnloadedUidIsGone(tasks, k);
    LookupIsMapLookup(tasks, tasks[k].uid);
    MapOfModified(tasks, k, permName, granted);
  }

  /** Every call acts on the list as on the map. */
  lemma StepRefinesMap(config: Config, s: State, call: Call)
    requires OneTaskPerUid(s.tasks)
    ensures AsMap(Step(config, s, call).state.tasks) == MapAfter(config, s, call)
  {
    hide AsMap, Query, Synced, SaveList, Regranted, Modified, IndexOfUid, IndexOfPkg, IsValidFlags;
    match call
    case Load(identifier, uid) =>
      LookupIsMapLookup(s.tasks, uid);
      var q := Query(config, s.files, identifier);
      if q.Success? {
        MapOfNewTask(s.tasks, Task(uid, identifier, q.value));
      }
    case UnLoad(uid) =>
      MapOfWithoutUid(s.tasks, uid);
    case Grant(identifier, permName, granted) =>
      var k := IndexOfPkg(s.tasks, identifier);
      if k < |s.tasks| {
        RegrantedIsModified(s.tasks, k, permName, granted);
      }
    case GrantRuntime(uid, permName, granted) =>
      var k := IndexOfUid(s.tasks, uid);
      LookupIsMapLookup(s.tasks, uid);
      if k < |s.tasks| {
        RegrantedIsModified(s.tasks, k, permName, granted);
      } else {
        assert Regranted(AsMap(s.tasks), uid, permName, granted) == AsMap(s.tasks) by { NoTaskNoChange(AsMap(s.tasks), uid, permName, granted); }
      }
    case _ =>
  }

  lemma NoTaskNoChange(m: map<int, Task>, uid: int, permName: string, granted: Status)
    requires uid !in m
    ensures Regranted(m, uid, permName, granted) == m
  {
  }
}
