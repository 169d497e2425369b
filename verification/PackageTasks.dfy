/** The tasks of one package in the task list, and what each change of the list does to them. */
module PackageTasks {
  import opened PmsModel

  /** The tasks of that package, in list order. */
  function TasksOf(tasks: seq<Task>, pkg: string): seq<Task> {
    if tasks == [] then []
    else (if tasks[0].pkgName == pkg then [tasks[0]] else []) + TasksOf(tasks[1..], pkg)
  }

  lemma {:induction false} TasksOfAppend(a: seq<Task>, b: seq<Task>, pkg: string)
    ensures TasksOf(a + b, pkg) == TasksOf(a, pkg) + TasksOf(b, pkg)
  {
    if a == [] {
      assert a + b == b;
    } else {
      var first := if a[0].pkgName == pkg then [a[0]] else [];
      TasksOfAppend(a[1..], b, pkg);
      assert (a + b)[1..] == a[1..] + b && (a + b)[0] == a[0];
      assert TasksOf(a + b, pkg) == first + TasksOf(a[1..] + b, pkg);
      Associate(first, TasksOf(a[1..], pkg), TasksOf(b, pkg));
    }
  }

  lemma Associate(a: seq<Task>, b: seq<Task>, c: seq<Task>)
    ensures a + (b + c) == (a + b) + c
  {
  }

  lemma {:induction false} TasksOfMembers(tasks: seq<Task>, pkg: string)
    ensures forall t :: t in TasksOf(tasks, pkg) <==> t in tasks && t.pkgName == pkg
  {
    if tasks == [] {
    } else {
      TasksOfMembers(tasks[1..], pkg);
      assert tasks == [tasks[0]] + tasks[1..];
    }
  }

  lemma TasksOfOne(t: Task, pkg: string)
    ensures TasksOf([t], pkg) == if t.pkgName == pkg then [t] else []
  {
    assert [t][1..] == [];
  }

  lemma TasksOfNew(t: Task, tasks: seq<Task>, pkg: string)
    ensures TasksOf([t] + tasks, pkg) == (if t.pkgName == pkg then [t] else []) + TasksOf(tasks, pkg)
  {
    TasksOfOne(t, pkg);
    TasksOfAppend([t], tasks, pkg);
  }

  lemma TasksOfSplit(tasks: seq<Task>, k: nat, pkg: string)
    requires k < |tasks|
    ensures TasksOf(tasks, pkg)
      == TasksOf(tasks[..k], pkg) + (if tasks[k].pkgName == pkg then [tasks[k]] else []) + TasksOf(tasks[k + 1..], pkg)
  {
    assert tasks == tasks[..k] + ([tasks[k]] + tasks[k + 1..]);
    TasksOfAppend(tasks[..k], [tasks[k]] + tasks[k + 1..], pkg);
    TasksOfNew(tasks[k], tasks[k + 1..], pkg);
  }

  /** Replacing a task by one of the same package touches that package only. */
  lemma TasksOfUpdate(tasks: seq<Task>, k: nat, t: Task, pkg: string)
    requires k < |tasks| && t.pkgName == tasks[k].pkgName
    ensures tasks[k].pkgName != pkg ==> TasksOf(tasks[k := t], pkg) == TasksOf(tasks, pkg)
    ensures tasks[k].pkgName == pkg && |TasksOf(tasks, pkg)| <= 1 ==>
      TasksOf(tasks, pkg) == [tasks[k]] && TasksOf(tasks[k := t], pkg) == [t]
  {
    hide TasksOf;
    TasksOfSplit(tasks, k, pkg);
    TasksOfSplit(tasks[k := t], k, pkg);
  }

  /** Removing a task touches its package only. */
  lemma TasksOfWithout(tasks: seq<Task>, uid: int, pkg: string)
    ensures
      var k := IndexOfUid(tasks, uid);
      && (k == |tasks| || tasks[k].pkgName != pkg ==> TasksOf(WithoutUid(tasks, uid), pkg) == TasksOf(tasks, pkg))
      && (k < |tasks| && tasks[k].pkgName == pkg && |TasksOf(tasks, pkg)| <= 1 ==> TasksOf(WithoutUid(tasks, uid), pkg) == [])
  {
    hide TasksOf, IndexOfUid;
    var k := IndexOfUid(tasks, uid);
    if k < |tasks| {
      TasksOfRemoval(tasks, k, pkg);
    }
  }

  lemma TasksOfRemoval(tasks: seq<Task>, k: nat, pkg: string)
    requires k < |tasks|
    ensures tasks[k].pkgName != pkg ==> TasksOf(tasks[..k] + tasks[k + 1..], pkg) == TasksOf(tasks, pkg)
    ensures tasks[k].pkgName == pkg && |TasksOf(tasks, pkg)| <= 1 ==> TasksOf(tasks[..k] + tasks[k + 1..], pkg) == []
  {
    hide TasksOf;
    TasksOfSplit(tasks, k, pkg);
    TasksOfAppend(tasks[..k], tasks[k + 1..], pkg);
    var a, b := TasksOf(tasks[..k], pkg), TasksOf(tasks[k + 1..], pkg);
    if tasks[k].pkgName == pkg {
      assert |TasksOf(tasks, pkg)| == |a| + 1 + |b|;
    } else {
      assert a + [] + b == a + b;
    }
  }

  /** What a lookup by package finds. */
  lemma TasksOfLookup(tasks: seq<Task>, pkg: string)
    ensures TasksOf(tasks, pkg) == [] <==> IndexOfPkg(tasks, pkg) == |tasks|
    ensures TasksOf(tasks, pkg) != [] ==> TasksOf(tasks, pkg)[0] == tasks[IndexOfPkg(tasks, pkg)]
  {
    hide TasksOf, IndexOfPkg;
    var k := IndexOfPkg(tasks, pkg);
    TasksOfMembers(tasks, pkg);
    if k < |tasks| {
      assert tasks[k] in tasks;
      TasksOfMembers(tasks[..k], pkg);
      NoneBefore(tasks[..k], pkg);
      TasksOfSplit(tasks, k, pkg);
    } else {
      NoneBefore(tasks, pkg);
    }
  }

  lemma NoneBefore(tasks: seq<Task>, pkg: string)
    requires forall i :: 0 <= i < |tasks| ==> tasks[i].pkgName != pkg
    ensures TasksOf(tasks, pkg) == []
  {
    hide TasksOf;
    TasksOfMembers(tasks, pkg);
    if TasksOf(tasks, pkg) != [] {
      assert TasksOf(tasks, pkg)[0] in TasksOf(tasks, pkg);
    }
  }

  lemma HasTaskIff(tasks: seq<Task>, pkg: string)
    ensures TasksOf(tasks, pkg) != [] <==> exists k :: 0 <= k < |tasks| && tasks[k].pkgName == pkg
  {
    hide TasksOf, IndexOfPkg;
    TasksOfLookup(tasks, pkg);
    var k := IndexOfPkg(tasks, pkg);
  }

  /** Removing the task of a uid leaves no other uid twice. */
  lemma RemovalKeepsUnique(tasks: seq<Task>, uid: int)
    requires OneTaskPerUid(tasks)
    ensures OneTaskPerUid(WithoutUid(tasks, uid))
  {
    hide IndexOfUid;
    var k, rest := IndexOfUid(tasks, uid), WithoutUid(tasks, uid);
    forall m | 0 <= m < |rest| ensures rest[m] == tasks[if m < k then m else m + 1] {}
  }

  /** At most one task per package, seen from the whole list. */
  ghost predicate OneTaskPerPkg(tasks: seq<Task>) {
    forall i, j :: 0 <= i < j < |tasks| ==> tasks[i].pkgName != tasks[j].pkgName
  }

  lemma OneTaskPerPkgIff(tasks: seq<Task>)
    ensures OneTaskPerPkg(tasks) <==> forall pkg :: |TasksOf(tasks, pkg)| <= 1
  {
    hide TasksOf;
    if OneTaskPerPkg(tasks) {
      forall pkg ensures |TasksOf(tasks, pkg)| <= 1 {
        var k := IndexOfPkg(tasks, pkg);
        TasksOfLookup(tasks, pkg);
        if k < |tasks| {
          TasksOfSplit(tasks, k, pkg);
          NoneBefore(tasks[..k], pkg);
          NoneBefore(tasks[k + 1..], pkg);
        }
      }
    }
    if i, j :| 0 <= i < j < |tasks| && tasks[i].pkgName == tasks[j].pkgName {
      var pkg, rest := tasks[i].pkgName, tasks[i + 1..];
      TasksOfSplit(tasks, i, pkg);
      assert rest[j - i - 1] == tasks[j];
      TasksOfSplit(rest, j - i - 1, pkg);
    }
  }
}
