/** A load that overlaps a file update of the same package. A grant or revoke that begins while the
    package is not loaded changes the file only; a load that reads the file before that change is
    written adds a task without it, and nothing brings the task up to date. */
module LoadRaces {
  import opened Common
  import opened PmsTypes
  import opened PermissionCodec
  import opened PmsModel
  import opened FileSync
  import opened Coherence
  import opened Interleaving
  import opened LostUpdates

  /** One sync of a readable file is under way, and no other call can write the file. */
  ghost predicate Updating(config: Config, s: System, c: nat, pkg: string, n: string, ch: Change, file: seq<PermissionSaved>, p: Progress) {
    && Query(config, s.files, pkg) == Success(file) && TextsFit(file)
    && ShowsCall(s, c, pkg, n, ch, p) && NoOtherWriter(s, c, c, pkg)
    && (p.Holding? ==> s.calls[c].SyncRead?)
  }

  /** The file and the sync's progress after these reads and writes of it. */
  function PlayOne(file: seq<PermissionSaved>, p: Progress, events: seq<Event>, n: string, ch: Change): (seq<PermissionSaved>, Progress)
    decreases |events|
  {
    if events == [] then (file, p)
    else if events[0] == Read1 then PlayOne(file, AfterRead(file, p, n, ch), events[1..], n, ch)
    else PlayOne(AfterWrite(file, p), Stopped(p), events[1..], n, ch)
  }

  lemma {:induction false} PlayOneAppend(file: seq<PermissionSaved>, p: Progress, a: seq<Event>, b: seq<Event>, n: string, ch: Change)
    ensures
      var mid := PlayOne(file, p, a, n, ch);
      PlayOne(file, p, a + b, n, ch) == PlayOne(mid.0, mid.1, b, n, ch)
    decreases |a|
  {
    if a == [] {
      assert a + b == b;
    } else {
      assert (a + b)[1..] == a[1..] + b;
      if a[0] == Read1 {
        PlayOneAppend(file, AfterRead(file, p, n, ch), a[1..], b, n, ch);
      } else {
        PlayOneAppend(AfterWrite(file, p), Stopped(p), a[1..], b, n, ch);
      }
    }
  }

  /** A read and then a write is a completed sync; before the write the file is as it was. */
  lemma PlayReadWrite(file: seq<PermissionSaved>, n: string, ch: Change)
    ensures PlayOne(file, Pending, [Read1, Write1], n, ch) == (AfterSync(file, n, ch), Over)
    ensures PlayOne(file, Pending, [Read1], n, ch).0 == file
  {
    hide Changed, NormalList;
    assert [Read1, Write1][1..] == [Write1] && [Write1][1..] == [] && [Read1][1..] == [];
    var p := AfterRead(file, Pending, n, ch);
    assert PlayOne(file, p, [Write1], n, ch) == PlayOne(AfterWrite(file, p), Stopped(p), [], n, ch);
  }

  lemma StepOfUpdate(config: Config, s: System, action: Action, c: nat, pkg: string, n: string, ch: Change, file: seq<PermissionSaved>, p: Progress)
    requires Updating(config, s, c, pkg, n, ch, file, p)
    requires EventOf(action, c, c).Some? || Aside(s, action, c, c, pkg)
    ensures
      var s' := Next(config, s, action);
      match EventOf(action, c, c)
      case None => Updating(config, s', c, pkg, n, ch, file, p)
      case Some(e) =>
        if e == Read1 then Updating(config, s', c, pkg, n, ch, file, AfterRead(file, p, n, ch))
        else Updating(config, s', c, pkg, n, ch, AfterWrite(file, p), Stopped(p))
    ensures pkg !in s.failed ==> pkg !in Next(config, s, action).failed
  {
    hide Query, TextsFit, AfterRead, AfterWrite, DoReadFile, DoWriteFile, Aside;
    var v, r := Rivals(n, ch, n, ch), Race(file, p, p);
    assert Shows(config, s, c, c, pkg, v, r);
    if EventOf(action, c, c).Some? {
      EventOfUpdate(config, s, action, c, pkg, n, ch, file, p);
    } else {
      AsideIsShown(config, s, action, c, c, pkg, v, r);
      if p.Holding? {
        AsideKeepsCall(config, s, action, c, pkg);
      }
    }
    if pkg !in s.failed {
      StepKeepsUnfailed(config, s, action, c, c, pkg, v, r);
    }
  }

  lemma AsideKeepsCall(config: Config, s: System, action: Action, c: nat, pkg: string)
    requires Aside(s, action, c, c, pkg) && c in s.calls && s.calls[c].SyncRead?
    ensures c in Next(config, s, action).calls && Next(config, s, action).calls[c] == s.calls[c]
  {
    hide Query, Changed, Written, SaveList, IsValidFlags, Names, Modified, IndexOfUid, IndexOfPkg, PathFits, IsRemoval;
  }

  lemma EventOfUpdate(config: Config, s: System, action: Action, c: nat, pkg: string, n: string, ch: Change, file: seq<PermissionSaved>, p: Progress)
    requires Updating(config, s, c, pkg, n, ch, file, p) && EventOf(action, c, c).Some?
    ensures
      var s' := Next(config, s, action);
      if EventOf(action, c, c).value == Read1 then Updating(config, s', c, pkg, n, ch, file, AfterRead(file, p, n, ch))
      else Updating(config, s', c, pkg, n, ch, AfterWrite(file, p), Stopped(p))
  {
    hide Query, TextsFit, Changed, NormalList, Written;
    var s' := Next(config, s, action);
    if action.ReadFile? {
      ReadIsShown(config, s, c, pkg, n, ch, file, p);
    } else {
      WriteIsShown(config, s, c, pkg, n, ch, file, p);
    }
    forall x | x != c ensures (x in s'.calls <==> x in s.calls) && (x in s.calls ==> s'.calls[x] == s.calls[x]) {
      OthersUnmoved(s, s', c, x);
    }
  }

  lemma {:induction false} RunOfUpdate(config: Config, s: System, actions: seq<Action>, c: nat, pkg: string, n: string, ch: Change,
                                       file: seq<PermissionSaved>, p: Progress)
    requires Updating(config, s, c, pkg, n, ch, file, p) && RaceRun(config, s, actions, c, c, pkg)
    ensures
      var s' := Execute(config, s, actions);
      var r := PlayOne(file, p, Events(actions, c, c), n, ch);
      Updating(config, s', c, pkg, n, ch, r.0, r.1) && (pkg !in s.failed ==> pkg !in s'.failed)
    decreases |actions|
  {
    hide Updating, Aside, Next, AfterRead, AfterWrite;
    if actions == [] {
    } else {
      var s1 := Next(config, s, actions[0]);
      var rest := Events(actions[1..], c, c);
      StepOfUpdate(config, s, actions[0], c, pkg, n, ch, file, p);
      match EventOf(actions[0], c, c) {
        case None => RunOfUpdate(config, s1, actions[1..], c, pkg, n, ch, file, p);
        case Some(e) =>
          assert ([e] + rest)[1..] == rest;
          if e == Read1 {
            RunOfUpdate(config, s1, actions[1..], c, pkg, n, ch, file, AfterRead(file, p, n, ch));
          } else {
            RunOfUpdate(config, s1, actions[1..], c, pkg, n, ch, AfterWrite(file, p), Stopped(p));
          }
      }
    }
  }

  // ---- the load

  lemma NextKeepsHeld(config: Config, s: System, action: Action, e: nat)
    requires e in s.calls && s.calls[e].LoadHeld? && action != FinishLoad(e) && action != AbortLoad(e)
    ensures e in Next(config, s, action).calls && Next(config, s, action).calls[e] == s.calls[e]
  {
    hide Query, Changed, Written, SaveList, IsValidFlags, Names, Modified, IndexOfUid, IndexOfPkg, PathFits, IsRemoval;
  }

  predicate Unfinished(actions: seq<Action>, e: nat) {
    forall i :: 0 <= i < |actions| ==> actions[i] != FinishLoad(e) && actions[i] != AbortLoad(e)
  }

  lemma {:induction false} RunKeepsHeld(config: Config, s: System, actions: seq<Action>, e: nat)
    requires e in s.calls && s.calls[e].LoadHeld? && Unfinished(actions, e)
    ensures var s' := Execute(config, s, actions); e in s'.calls && s'.calls[e] == s.calls[e]
    decreases |actions|
  {
    hide Next;
    if actions == [] {
    } else {
      NextKeepsHeld(config, s, actions[0], e);
      RunKeepsHeld(config, Next(config, s, actions[0]), actions[1..], e);
    }
  }

  lemma {:induction false} RunKeepsTask(config: Config, s: System, actions: seq<Action>, c: nat, pkg: string, t: Task)
    requires RaceRun(config, s, actions, c, c, pkg) && t in s.tasks && t.pkgName == pkg && StaysLoaded(actions, t.uid)
    ensures t in Execute(config, s, actions).tasks
    decreases |actions|
  {
    hide Aside, Next, EventOf;
    if actions == [] {
    } else {
      StepKeepsTask(config, s, actions[0], c, c, pkg, t);
      RunKeepsTask(config, Next(config, s, actions[0]), actions[1..], c, pkg, t);
    }
  }

  /** The load of e begins and ends somewhere among the steps of sync c and of calls on other packages. */
  ghost predicate LoadRun(config: Config, s: System, before: seq<Action>, middle: seq<Action>, after: seq<Action>,
                          c: nat, e: nat, pkg: string, uid: int)
  {
    var s1 := Execute(config, s, before);
    var s2 := DoBeginLoad(config, s1, e, pkg, uid);
    var s4 := DoFinishLoad(Execute(config, s2, middle), e);
    && e != c && e !in s1.calls && e in s2.calls
    && RaceRun(config, s, before, c, c, pkg)
    && RaceRun(config, s2, middle, c, c, pkg) && Unfinished(middle, e)
    && RaceRun(config, s4, after, c, c, pkg) && StaysLoaded(after, uid)
    && Events(before, c, c) + Events(middle, c, c) + Events(after, c, c) == [Read1, Write1]
  }

  function LoadRunEnd(config: Config, s: System, before: seq<Action>, middle: seq<Action>, after: seq<Action>, e: nat, pkg: string, uid: int): System {
    Execute(config, DoFinishLoad(Execute(config, DoBeginLoad(config, Execute(config, s, before), e, pkg, uid), middle), e), after)
  }

  /** The three parts of the run, and the task the load adds. */
  lemma LoadRunOutcome(config: Config, s: System, before: seq<Action>, middle: seq<Action>, after: seq<Action>,
                       c: nat, e: nat, pkg: string, uid: int, n: string, ch: Change, ps: seq<PermissionSaved>)
    requires Updating(config, s, c, pkg, n, ch, ps, Pending) && pkg !in s.failed
    requires LoadRun(config, s, before, middle, after, c, e, pkg, uid)
    ensures
      var s5 := LoadRunEnd(config, s, before, middle, after, e, pkg, uid);
      && Query(config, s5.files, pkg) == Success(AfterSync(ps, n, ch)) && c !in s5.calls && pkg !in s5.failed
      && Task(uid, pkg, PlayOne(ps, Pending, Events(before, c, c), n, ch).0) in s5.tasks
  {
    hide Query, TextsFit, Execute, RaceRun, Events, AfterSync, PlayOne, Next, Aside, DoBeginLoad;
    var a, b, d := Events(before, c, c), Events(middle, c, c), Events(after, c, c);
    var s1 := Execute(config, s, before);
    var r1 := PlayOne(ps, Pending, a, n, ch);
    RunOfUpdate(config, s, before, c, pkg, n, ch, ps, Pending);
    var s2 := DoBeginLoad(config, s1, e, pkg, uid);
    BeginLoadInUpdate(config, s1, c, e, pkg, uid, n, ch, r1.0, r1.1);
    var s3 := Execute(config, s2, middle);
    var r3 := PlayOne(r1.0, r1.1, b, n, ch);
    RunOfUpdate(config, s2, middle, c, pkg, n, ch, r1.0, r1.1);
    RunKeepsHeld(config, s2, middle, e);
    var s4 := DoFinishLoad(s3, e);
    FinishLoadInUpdate(config, s3, c, e, pkg, n, ch, r3.0, r3.1);
    RunOfUpdate(config, s4, after, c, pkg, n, ch, r3.0, r3.1);
    RunKeepsTask(config, s4, after, c, pkg, Task(uid, pkg, r1.0));
    PlayOneAppend(ps, Pending, a + b, d, n, ch);
    PlayOneAppend(ps, Pending, a, b, n, ch);
    PlayReadWrite(ps, n, ch);
  }

  lemma BeginLoadInUpdate(config: Config, s: System, c: nat, e: nat, pkg: string, uid: int, n: string, ch: Change,
                          file: seq<PermissionSaved>, p: Progress)
    requires Updating(config, s, c, pkg, n, ch, file, p) && e != c
    requires e !in s.calls && e in DoBeginLoad(config, s, e, pkg, uid).calls
    ensures
      var s' := DoBeginLoad(config, s, e, pkg, uid);
      && Updating(config, s', c, pkg, n, ch, file, p) && s'.failed == s.failed && s'.calls[e] == LoadHeld(pkg, uid, file)
  {
    hide Query, TextsFit;
  }

  lemma FinishLoadInUpdate(config: Config, s: System, c: nat, e: nat, pkg: string, n: string, ch: Change,
                           file: seq<PermissionSaved>, p: Progress)
    requires Updating(config, s, c, pkg, n, ch, file, p) && e != c && e in s.calls && s.calls[e].LoadHeld? && s.calls[e].pkg == pkg
    ensures
      var s' := DoFinishLoad(s, e);
      && Updating(config, s', c, pkg, n, ch, file, p) && pkg !in s'.failed
      && Task(s.calls[e].uid, pkg, s.calls[e].list) in s'.tasks
  {
    hide Query, TextsFit;
    assert DoFinishLoad(s, e).tasks[0] == Task(s.calls[e].uid, pkg, s.calls[e].list);
  }

  /** A load during a file update, with any steps of other calls in between: the task it adds matches the
      file at the end if and only if the update was written before the load read, or made no difference to
      names and granted values. Otherwise task and file disagree although no access has failed. */
  lemma LoadRaceMatchesIff(config: Config, s: System, before: seq<Action>, middle: seq<Action>, after: seq<Action>,
                           c: nat, e: nat, pkg: string, uid: int, n: string, ch: Change)
    requires c in s.calls && s.calls[c] == SyncPending(pkg, n, ch) && NoOtherWriter(s, c, c, pkg)
    requires Query(config, s.files, pkg).Success? && pkg !in s.failed
    requires LoadRun(config, s, before, middle, after, c, e, pkg, uid)
    ensures
      var s' := LoadRunEnd(config, s, before, middle, after, e, pkg, uid);
      var ps := Query(config, s.files, pkg).value;
      var t := Task(uid, pkg, if |Events(before, c, c)| == 2 then AfterSync(ps, n, ch) else ps);
      && t in s'.tasks && pkg !in s'.failed && c !in s'.calls
      && (Matches(config, s'.files, t) <==> |Events(before, c, c)| == 2 || SameGrants(ps, AfterSync(ps, n, ch)))
  {
    hide Query, TextsFit, LoadRunEnd, AfterSync, Events, Execute, RaceRun, DoBeginLoad, DoFinishLoad;
    var ps := Query(config, s.files, pkg).value;
    var a, b, d := Events(before, c, c), Events(middle, c, c), Events(after, c, c);
    QueriedTextsFit(config, s.files, pkg);
    LoadRunOutcome(config, s, before, middle, after, c, e, pkg, uid, n, ch, ps);
    PlayReadWrite(ps, n, ch);
    var all := a + b + d;
    assert a == all[..|a|];
    if |a| == 2 {
      assert a == [Read1, Write1];
    } else if |a| == 1 {
      assert a == [Read1];
    } else {
      assert a == [];
    }
  }

  /** For a file with granted values 0 and 1: a flags update makes no such difference, and a grant or revoke
      makes none exactly when the permission already has that value. */
  lemma MakesNoDifferenceIff(ps: seq<PermissionSaved>, n: string, ch: Change)
    requires AllStorable(ps)
    ensures SameGrants(ps, AfterSync(ps, n, ch)) <==> ch.SetFlags? || Changed(ps, n, ch) == ps
  {
    hide AfterSync;
    StorableSync(ps, n, ch);
    var i, qs := IndexOfName(ps, n), Changed(ps, n, ch);
    if ch.SetGranted? && i < |ps| && ps[i].granted == ch.granted {
      assert qs == ps;
    }
  }
}
