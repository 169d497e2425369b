/** The list of running tasks: a singly linked list of nodes, each owning its array of permissions. */
module TaskList {
  import opened PmsTypes
  import opened PmsModel
  import opened HalModel

  class TNode {
    var uid: int
    var pkgName: string
    var permList: array?<PermissionSaved>
    var permNum: int
    var next: TNode?

    constructor (uid: int, pkgName: string, permList: array?<PermissionSaved>, permNum: int)
      ensures this.uid == uid && this.pkgName == pkgName && this.permList == permList && this.permNum == permNum
      ensures next == null
    {
      this.uid, this.pkgName, this.permList, this.permNum := uid, pkgName, permList, permNum;
      next := null;
    }

    /** The node represents the task. Exactly the empty permission list has no array. */
    ghost predicate Holds(t: Task)
      reads this, permList
    {
      && uid == t.uid && pkgName == t.pkgName
      && permNum == |t.perms|
      && (if permList == null then t.perms == [] else permList[..] == t.perms && t.perms != [])
    }

    /** The memory blocks of this node. */
    ghost function Blocks(): set<object>
      reads this
    {
      if permList == null then {this} else {this, permList}
    }
  }

  /** Following `next` from n holds exactly the tasks ts, in order, and ends at m. The segment consists
      of exactly the memory blocks repr, no two nodes sharing one. */
  ghost predicate Segment(n: TNode?, m: TNode?, ts: seq<Task>, repr: set<object>)
    reads repr
    decreases |ts|
  {
    if ts == [] then n == m && repr == {}
    else
      && n != null && n in repr && n.Blocks() <= repr
      && n.Holds(ts[0]) && Segment(n.next, m, ts[1..], repr - n.Blocks())
  }

  /** In the list from n on, `node` holds task k. */
  ghost predicate IsAt(n: TNode?, ts: seq<Task>, repr: set<object>, k: nat, node: TNode)
    reads repr
    ensures IsAt(n, ts, repr, k, node) ==> node in repr && node.Blocks() <= repr && k < |ts| && node.Holds(ts[k])
    decreases k
  {
    Segment(n, null, ts, repr) && k < |ts|
    && if k == 0 then n == node else IsAt(n.next, ts[1..], repr - n.Blocks(), k - 1, node)
  }

  lemma {:induction false} NextIsAt(n: TNode?, ts: seq<Task>, repr: set<object>, k: nat, node: TNode)
    requires IsAt(n, ts, repr, k, node)
    ensures if k + 1 < |ts| then node.next != null && IsAt(n, ts, repr, k + 1, node.next) else node.next == null
    decreases k
  {
    if k == 0 {
      assert |ts[1..]| == |ts| - 1;
      assert Segment(n.next, null, ts[1..], repr - n.Blocks());
    } else {
      NextIsAt(n.next, ts[1..], repr - n.Blocks(), k - 1, node);
    }
  }

  /** The nodes before task k form a segment that ends at the node holding it. */
  lemma {:induction false} SplitAt(n: TNode?, ts: seq<Task>, repr: set<object>, k: nat, node: TNode) returns (before: set<object>)
    requires IsAt(n, ts, repr, k, node)
    ensures before <= repr && Segment(n, node, ts[..k], before) && Segment(node, null, ts[k..], repr - before)
    decreases k
  {
    if k == 0 {
      before := {};
      assert repr - {} == repr;
    } else {
      var rest := SplitAt(n.next, ts[1..], repr - n.Blocks(), k - 1, node);
      before := n.Blocks() + rest;
      assert ts[..k][1..] == ts[1..][..k - 1];
      assert ts[1..][k - 1..] == ts[k..];
      assert before - n.Blocks() == rest;
      assert repr - before == repr - n.Blocks() - rest;
    }
  }

  lemma SkipHead(n: TNode?, ts: seq<Task>, repr: set<object>, cur: TNode)
    requires IsAt(n, ts, repr, 0, cur)
    ensures Segment(cur.next, null, ts[1..], repr - cur.Blocks())
  {
  }

  /** The list around `cur`, which holds task k and follows `pre`. */
  lemma SplitAround(n: TNode?, ts: seq<Task>, repr: set<object>, k: nat, pre: TNode, cur: TNode) returns (before: set<object>)
    requires 0 < k < |ts| && IsAt(n, ts, repr, k - 1, pre) && pre.next == cur
    ensures before <= repr && before !! pre.Blocks() && before !! cur.Blocks() && pre.Blocks() !! cur.Blocks()
    ensures Segment(n, pre, ts[..k - 1], before)
    ensures pre.Holds(ts[k - 1])
    ensures Segment(cur.next, null, ts[k + 1..], repr - before - pre.Blocks() - cur.Blocks())
  {
    before := SplitAt(n, ts, repr, k - 1, pre);
    assert ts[k - 1..][1..] == ts[k..];
    assert Segment(cur, null, ts[k..], repr - before - pre.Blocks());
    assert ts[k..][1..] == ts[k + 1..];
  }

  lemma {:induction false} Join(a: TNode?, b: TNode?, c: TNode?, ts: seq<Task>, us: seq<Task>, r: set<object>, q: set<object>)
    requires Segment(a, b, ts, r) && Segment(b, c, us, q) && r !! q
    ensures Segment(a, c, ts + us, r + q)
    decreases |ts|
  {
    if ts == [] {
      assert ts + us == us && r + q == q;
    } else {
      Join(a.next, b, c, ts[1..], us, r - a.Blocks(), q);
      assert (ts + us)[1..] == ts[1..] + us;
      assert r + q - a.Blocks() == (r - a.Blocks()) + q;
    }
  }

  /** The nodes before and after the one holding task k. */
  lemma SplitAtNode(n: TNode?, ts: seq<Task>, repr: set<object>, k: nat, node: TNode) returns (before: set<object>)
    requires IsAt(n, ts, repr, k, node)
    ensures before <= repr && node.Blocks() <= repr - before && k < |ts|
    ensures Segment(n, node, ts[..k], before)
    ensures Segment(node.next, null, ts[k + 1..], repr - before - node.Blocks())
  {
    before := SplitAt(n, ts, repr, k, node);
    assert ts[k..][1..] == ts[k + 1..];
  }

  /** The list when the node holding task k has come to hold t. */
  lemma Refit(n: TNode?, ts: seq<Task>, repr: set<object>, k: nat, node: TNode, before: set<object>, t: Task)
    requires k < |ts| && before <= repr && node.Blocks() <= repr - before && node.Holds(t)
    requires Segment(n, node, ts[..k], before)
    requires Segment(node.next, null, ts[k + 1..], repr - before - node.Blocks())
    ensures Segment(n, null, ts[k := t], repr)
  {
    var rest := [t] + ts[k + 1..];
    assert rest[1..] == ts[k + 1..];
    assert Segment(node, null, rest, repr - before);
    Join(n, node, null, ts[..k], rest, before, repr - before);
    assert ts[k := t] == ts[..k] + rest && before + (repr - before) == repr;
  }

  /** The list when `pre` has been redirected past the node holding task k. */
  lemma Rejoin(n: TNode?, ts: seq<Task>, k: nat, pre: TNode, before: set<object>, after: set<object>)
    requires 0 < k < |ts| && pre.Holds(ts[k - 1])
    requires Segment(n, pre, ts[..k - 1], before) && Segment(pre.next, null, ts[k + 1..], after)
    requires before !! pre.Blocks() && before !! after && pre.Blocks() !! after
    ensures Segment(n, null, ts[..k] + ts[k + 1..], before + pre.Blocks() + after)
  {
    var rest := [ts[k - 1]] + ts[k + 1..];
    assert rest[1..] == ts[k + 1..];
    assert pre.Blocks() + after - pre.Blocks() == after;
    assert Segment(pre, null, rest, pre.Blocks() + after);
    Join(n, pre, null, ts[..k - 1], rest, before, pre.Blocks() + after);
    assert ts[..k - 1] + rest == ts[..k] + ts[k + 1..];
    assert before + (pre.Blocks() + after) == before + pre.Blocks() + after;
  }

  /** One block per node and one per non-empty permission array. */
  function BlockCount(ts: seq<Task>): nat {
    if ts == [] then 0 else (if ts[0].perms == [] then 1 else 2) + BlockCount(ts[1..])
  }

  lemma {:induction false} SegmentBlockCount(n: TNode?, m: TNode?, ts: seq<Task>, repr: set<object>)
    requires Segment(n, m, ts, repr)
    ensures |repr| == BlockCount(ts)
    decreases |ts|
  {
    if ts == [] {
    } else {
      SegmentBlockCount(n.next, m, ts[1..], repr - n.Blocks());
      assert |n.Blocks()| == if ts[0].perms == [] then 1 else 2;
      assert |repr| == |repr - n.Blocks()| + |n.Blocks()|;
    }
  }

  class TList {
    var head: TNode?
    /** The list's value. */
    ghost var tasks: seq<Task>
    /** The memory blocks the list owns. */
    ghost var Repr: set<object>

    ghost predicate Valid()
      reads this, Repr
    {
      this !in Repr && Segment(head, null, tasks, Repr)
    }

    /** `node` is the result of a lookup that stopped at position k. */
    ghost predicate Found(node: TNode?, k: nat)
      reads this, Repr
    {
      if node == null then k == |tasks| else IsAt(head, tasks, Repr, k, node)
    }

    lemma HeadIsFound()
      requires Valid()
      ensures Found(head, 0)
    {
    }

    constructor ()
      ensures Valid() && tasks == [] && Repr == {}
    {
      head, tasks, Repr := null, [], {};
    }

    method PermissionIsGranted(uid: int, permission: string) returns (r: int)
      requires Valid()
      ensures r == GrantedIn(tasks, uid, permission)
    {
      hide IndexOfUid, IndexOfName, Segment, IsAt;
      HeadIsFound();
      var cur := head;
      ghost var k := 0;
      while cur != null
        invariant k <= |tasks| && Found(cur, k)
        invariant forall j :: 0 <= j < k ==> tasks[j].uid != uid
        decreases |tasks| - k
      {
        if cur.uid != uid {
          NextIsAt(head, tasks, Repr, k, cur);
          cur := cur.next;
          k := k + 1;
          continue;
        }
        var i := 0;
        while i < cur.permNum
          invariant 0 <= i <= cur.permNum
          invariant forall j :: 0 <= j < i ==> tasks[k].perms[j].name != permission
        {
          if cur.permList[i].name == permission {
            return cur.permList[i].granted;
          }
          i := i + 1;
        }
        return RET_NOK;
      }
      return RET_NOK;
    }

    /** Sets the granted value of the node's first permission of that name, in place. */
    method ModifyPermission(node: TNode, ghost k: nat, permission: string, granted: Status) returns (r: int)
      requires Valid() && IsAt(head, tasks, Repr, k, node)
      modifies this`tasks, node.permList
      ensures Valid()
      ensures r == if Names(old(tasks)[k], permission) then RET_OK else RET_NOK
      ensures tasks == Modified(old(tasks), k, permission, granted)
      ensures r != RET_OK ==> tasks == old(tasks)
    {
      hide IndexOfName, Segment, IsAt;
      ghost var t := tasks[k];
      var i := 0;
      while i < node.permNum
        invariant 0 <= i <= node.permNum
        invariant forall j :: 0 <= j < i ==> t.perms[j].name != permission
      {
        if node.permList[i].name == permission {
          ghost var before := SplitAtNode(head, tasks, Repr, k, node);
          ghost var t' := t.(perms := t.perms[i := Apply(t.perms[i], SetGranted(granted))]);
          node.permList[i] := node.permList[i].(granted := granted);
          Refit(head, tasks, Repr, k, node, before, t');
          tasks := tasks[k := t'];
          return RET_OK;
        }
        i := i + 1;
      }
      assert tasks[k := t] == tasks;
      return RET_NOK;
    }

    /** Links a node in at the head. */
    method AddTask(node: TNode, ghost t: Task)
      requires Valid() && node.Holds(t) && node.next == null && node.Blocks() !! Repr
      modifies this, node`next
      ensures Valid()
      ensures tasks == [t] + old(tasks)
      ensures Repr == old(Repr) + node.Blocks()
    {
      ghost var blocks := node.Blocks();
      if head == null {
        head := node;
      } else {
        node.next := head;
        head := node;
      }
      assert ([t] + tasks)[1..] == tasks;
      assert Repr + blocks - blocks == Repr;
      tasks := [t] + tasks;
      Repr := Repr + blocks;
    }

    /** Makes the list skip `cur`, which holds task k and follows `pre`. */
    method Unlink(ghost k: nat, pre: TNode?, cur: TNode)
      requires Valid() && IsAt(head, tasks, Repr, k, cur)
      requires if k == 0 then pre == null else pre != null && IsAt(head, tasks, Repr, k - 1, pre) && pre.next == cur
      modifies this, pre
      ensures Valid()
      ensures tasks == old(tasks)[..k] + old(tasks)[k + 1..]
      ensures Repr == old(Repr) - cur.Blocks()
    {
      hide Segment, IsAt;
      ghost var blocks, tail := cur.Blocks(), tasks[k + 1..];
      if pre == null {
        SkipHead(head, tasks, Repr, cur);
        head := cur.next;
        assert tasks[..k] + tail == tasks[1..];
      } else {
        ghost var before := SplitAround(head, tasks, Repr, k, pre, cur);
        ghost var after := Repr - before - pre.Blocks() - blocks;
        pre.next := cur.next;
        Rejoin(head, tasks, k, pre, before, after);
        assert before + pre.Blocks() + after == Repr - blocks;
      }
      tasks := tasks[..k] + tail;
      Repr := Repr - blocks;
    }

    /** Unlinks and frees the first node of that uid, with its array. */
    method DeleteTask(hal: Hal, uid: int)
      requires Valid() && Repr <= hal.live && hal !in Repr
      modifies this, Repr, hal`live
      ensures Valid()
      ensures tasks == WithoutUid(old(tasks), uid)
      ensures Repr <= old(Repr) && hal.live == old(hal.live) - (old(Repr) - Repr)
    {
      hide IndexOfUid, Segment, IsAt;
      HeadIsFound();
      var cur := head;
      var pre: TNode? := null;
      ghost var k := 0;
      while cur != null
        invariant Valid() && tasks == old(tasks) && Repr == old(Repr) && hal.live == old(hal.live)
        invariant k <= |tasks| && Found(cur, k)
        invariant if k == 0 then pre == null && cur == head else pre != null && IsAt(head, tasks, Repr, k - 1, pre) && pre.next == cur
        invariant forall j :: 0 <= j < k ==> tasks[j].uid != uid
        decreases |tasks| - k
      {
        if cur.uid == uid {
          Unlink(k, pre, cur);
          hal.Free(cur.permList);
          hal.Free(cur);
          return;
        }
        NextIsAt(head, tasks, Repr, k, cur);
        pre := cur;
        cur := cur.next;
        k := k + 1;
      }
    }

    method GetTaskWithUid(uid: int) returns (node: TNode?)
      requires Valid()
      ensures Found(node, IndexOfUid(tasks, uid))
    {
      hide IndexOfUid, Segment, IsAt;
      HeadIsFound();
      node := head;
      ghost var k := 0;
      while node != null
        invariant k <= |tasks| && Found(node, k)
        invariant forall j :: 0 <= j < k ==> tasks[j].uid != uid
        decreases |tasks| - k
      {
        if node.uid == uid {
          assert k == IndexOfUid(tasks, uid);
          return;
        }
        NextIsAt(head, tasks, Repr, k, node);
        node := node.next;
        k := k + 1;
      }
    }

    method GetTaskWithPkgName(pkgName: string) returns (node: TNode?)
      requires Valid()
      ensures Found(node, IndexOfPkg(tasks, pkgName))
    {
      hide IndexOfPkg, Segment, IsAt;
      HeadIsFound();
      node := head;
      ghost var k := 0;
      while node != null
        invariant k <= |tasks| && Found(node, k)
        invariant forall j :: 0 <= j < k ==> tasks[j].pkgName != pkgName
        decreases |tasks| - k
      {
        if node.pkgName == pkgName {
          assert k == IndexOfPkg(tasks, pkgName);
          return;
        }
        NextIsAt(head, tasks, Repr, k, node);
        node := node.next;
        k := k + 1;
      }
    }
  }
}
