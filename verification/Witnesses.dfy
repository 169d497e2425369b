/** Concrete runs from the service's start on which each of the conditions proved elsewhere fails. Every access in them succeeds. */
module Witnesses {
  import opened Common
  import opened PmsTypes
  import opened PermissionCodec
  import opened Installation
  import opened PmsModel
  import opened FileSync
  import opened Coherence
  import opened Store
  import opened Interleaving
  import opened LostUpdates
  import opened LoadRaces
  import opened InstallRaces

  // ---- the setting

  /** A package whose file can be read and whose name a task can hold. */
  ghost predicate Usable(config: Config, identifier: string) {
    PathFits(config, identifier) && config.validPath(config.permissionPath + identifier) && |identifier| < PKG_NAME_LEN
  }

  function Entry(name: string, granted: Status): PermissionSaved { PermissionSaved(name, "", granted, PMS_FLAG_DEFAULT) }

  /** A store with one file of two permissions, a and b. */
  function StoreOf(identifier: string, a: Status, b: Status): Files {
    map[identifier := Tree(Encode([Entry("a", a), Entry("b", b)]))]
  }

  lemma StoreReads(config: Config, identifier: string, a: Status, b: Status)
    requires Usable(config, identifier)
    ensures
      var ps := [Entry("a", a), Entry("b", b)];
      && Query(config, StoreOf(identifier, a, b), identifier) == Success(ps) && AllStorable(ps)
      && Changed(ps, "a", SetGranted(GRANTED)) == [Entry("a", GRANTED), Entry("b", b)]
      && IndexOfName(ps, "a") == 0 && IndexOfName(ps, "b") == 1
  {
    hide Decode, Encode;
    RoundTrip([Entry("a", a), Entry("b", b)]);
    EntriesGranted([Entry("a", a), Entry("b", b)]);
  }

  lemma EntryGranted(ps: seq<PermissionSaved>)
    requires ps != [] && ps[0].name == "a"
    ensures IndexOfName(ps, "a") == 0 && GrantedOf(ps, "a") == ps[0].granted
  {
  }

  lemma RunOfThree(config: Config, s: State, calls: seq<Call>)
    requires |calls| == 3
    ensures Run(config, s, calls)
      == Step(config, Step(config, Step(config, s, calls[0]).state, calls[1]).state, calls[2]).state
  {
    hide Step;
    var s1 := Step(config, s, calls[0]).state;
    assert calls[1..][1..] == calls[2..];
    RunOfTwo(config, s1, calls[1..]);
  }

  lemma {:induction false} ExecuteAppend(config: Config, s: System, a: seq<Action>, b: seq<Action>)
    ensures Execute(config, s, a + b) == Execute(config, Execute(config, s, a), b)
    decreases |a|
  {
    hide Next;
    if a == [] {
      assert a + b == b;
    } else {
      assert (a + b)[1..] == a[1..] + b;
      ExecuteAppend(config, Next(config, s, a[0]), a[1..], b);
    }
  }

  lemma ExecuteOne(config: Config, s: System, action: Action)
    ensures Execute(config, s, [action]) == Next(config, s, action)
  {
    hide Next;
    assert [action][1..] == [];
  }

  lemma ExecuteTwo(config: Config, s: System, a: Action, b: Action)
    ensures Execute(config, s, [a, b]) == Next(config, Next(config, s, a), b)
  {
    hide Next;
    assert [a, b][1..] == [b];
    ExecuteOne(config, Next(config, s, a), b);
  }

  /** Steps of the two calls of a race only. */
  lemma {:induction false} OnlyEventsRace(config: Config, s: System, actions: seq<Action>, c: nat, d: nat, pkg: string)
    requires forall i :: 0 <= i < |actions| ==> EventOf(actions[i], c, d).Some?
    ensures RaceRun(config, s, actions, c, d, pkg)
    decreases |actions|
  {
    hide Next, Aside;
    if actions == [] {
    } else {
      OnlyEventsRace(config, Next(config, s, actions[0]), actions[1..], c, d, pkg);
    }
  }

  // ---- sequential runs

  /** A load puts the task first. */
  lemma LoadedFirst(config: Config, identifier: string, uid: nat, s: State, ps: seq<PermissionSaved>)
    requires Usable(config, identifier) && Query(config, s.files, identifier) == Success(ps)
    requires forall i :: 0 <= i < |s.tasks| ==> s.tasks[i].uid != uid
    ensures Step(config, s, Load(identifier, uid)).state == State([Task(uid, identifier, ps)] + s.tasks, s.files)
    ensures Matches(config, s.files, Task(uid, identifier, ps))
  {
    hide Query;
  }

  lemma OneRequest(p: PermissionTrans)
    ensures FirstOccurrences([p]) == [p]
  {
    assert [p][..0] == [];
  }

  /** An upgrade with one short request succeeds. */
  lemma SaveSucceeds(config: Config, s: State, identifier: string, requests: seq<PermissionTrans>, ps: seq<PermissionSaved>)
    requires Usable(config, identifier) && config.maxPermissions >= 1 && Query(config, s.files, identifier) == Success(ps)
    requires |requests| == 1 && FirstOccurrences(requests) == requests && |requests[0].name| == 1 && requests[0].desc == ""
    ensures SaveList(config, s.files, identifier, requests, UPDATE).Success?
    ensures SaveStep(config, s, identifier, requests, UPDATE).ret == SUCCESS
    ensures SaveStep(config, s, identifier, requests, UPDATE).state.tasks == s.tasks
  {
    hide Query, Merged;
  }

  /** An upgrade that drops a permission, and a delete, of a running package. */
  lemma InstallWhileRunning(config: Config, identifier: string, call: Call)
    requires Usable(config, identifier) && config.maxPermissions >= 1
    requires call == Save(identifier, [PermissionTrans("b", "", INUSE)], UPDATE) || call == Delete(identifier)
    ensures
      var s' := Run(config, State([], StoreOf(identifier, GRANTED, GRANTED)), [Load(identifier, 1), call]);
      && |s'.tasks| == 1 && CheckPermissionStat(s', 1, "a") == GRANTED && !Matches(config, s'.files, s'.tasks[0])
  {
    hide Query, IndexOfName, FirstOccurrences, SaveStep, Matches;
    var s0, ps := State([], StoreOf(identifier, GRANTED, GRANTED)), [Entry("a", GRANTED), Entry("b", GRANTED)];
    StoreReads(config, identifier, GRANTED, GRANTED);
    var t := Task(1, identifier, ps);
    var s1 := Step(config, s0, Load(identifier, 1)).state;
    LoadedFirst(config, identifier, 1, s0, ps);
    RunOfTwo(config, s0, [Load(identifier, 1), call]);
    if call.Save? {
      var requests := [PermissionTrans("b", "", INUSE)];
      OneRequest(requests[0]);
      SaveSucceeds(config, s1, identifier, requests, ps);
      InstallMatchesIff(config, s1, t, requests, UPDATE);
    } else {
      RemovalNeverMatches(config, s1, t, call);
    }
  }

  /** A package under two uids: a grant by package reaches the one loaded last, a grant by uid that uid. */
  lemma TwinLeftBehind(config: Config, identifier: string, call: Call, stale: nat)
    requires Usable(config, identifier)
    requires (call == Grant(identifier, "a", GRANTED) && stale == 1) || (call == GrantRuntime(1, "a", GRANTED) && stale == 0)
    ensures
      var calls := [Load(identifier, 1), Load(identifier, 2), call];
      var s' := Run(config, State([], StoreOf(identifier, NOT_GRANTED, NOT_GRANTED)), calls);
      |s'.tasks| == 2 && !Matches(config, s'.files, s'.tasks[stale])
  {
    hide Query, IndexOfName, GrantedOf, Changed, Matches, Synced;
    var s0, ps := State([], StoreOf(identifier, NOT_GRANTED, NOT_GRANTED)), [Entry("a", NOT_GRANTED), Entry("b", NOT_GRANTED)];
    StoreReads(config, identifier, NOT_GRANTED, NOT_GRANTED);
    var s1 := Step(config, s0, Load(identifier, 1)).state;
    var s2 := Step(config, s1, Load(identifier, 2)).state;
    LoadedFirst(config, identifier, 1, s0, ps);
    LoadedFirst(config, identifier, 2, s1, ps);
    RunOfThree(config, s0, [Load(identifier, 1), Load(identifier, 2), call]);
    assert s2.tasks == [Task(2, identifier, ps), Task(1, identifier, ps)];
    assert GrantedOf(ps, "a") == NOT_GRANTED by { EntryGranted(ps); }
    if call.Grant? {
      assert IndexOfPkg(s2.tasks, identifier) == 0;
      GrantLeavesTwinMatchingIff(config, s2, 0, 1, "a", GRANTED);
    } else {
      assert IndexOfUid(s2.tasks, 1) == 1;
      RuntimeGrantLeavesTwinMatchingIff(config, s2, 1, 0, "a", GRANTED);
    }
  }

  // ---- interleaved runs

  /** The service with the package loaded, no call in progress and nothing failed. */
  function LoadedSystem(identifier: string, uid: int, files: Files, ps: seq<PermissionSaved>): System {
    System([Task(uid, identifier, ps)], files, map[], None, {})
  }

  lemma LoadAtStart(config: Config, identifier: string, files: Files, ps: seq<PermissionSaved>)
    requires Usable(config, identifier) && Query(config, files, identifier) == Success(ps)
    ensures Execute(config, Start(files), [BeginLoad(0, identifier, 1), FinishLoad(0)]) == LoadedSystem(identifier, 1, files, ps)
  {
    hide Query;
    ExecuteTwo(config, Start(files), BeginLoad(0, identifier, 1), FinishLoad(0));
  }

  lemma EventsOfRace()
    ensures Events([ReadFile(0), ReadFile(1), WriteFile(0), WriteFile(1)], 0, 1) == [Read1, Read2, Write1, Write2]
    ensures Events([ReadFile(0), WriteFile(0), WriteFile(1)], 0, 1) == [Read1, Write1, Write2]
    ensures Events([ReadFile(0)], 0, 0) == [Read1] && Events([WriteFile(0)], 0, 0) == [Write1]
  {
    assert [ReadFile(0), ReadFile(1), WriteFile(0), WriteFile(1)][1..] == [ReadFile(1), WriteFile(0), WriteFile(1)];
    assert [ReadFile(1), WriteFile(0), WriteFile(1)][1..] == [WriteFile(0), WriteFile(1)];
    assert [ReadFile(0), WriteFile(0), WriteFile(1)][1..] == [WriteFile(0), WriteFile(1)];
    assert [WriteFile(0), WriteFile(1)][1..] == [WriteFile(1)];
    assert [WriteFile(1)][1..] == [] && [WriteFile(0)][1..] == [] && [ReadFile(0)][1..] == [];
    assert Events([WriteFile(1)], 0, 1) == [Write2];
    assert Events([WriteFile(0), WriteFile(1)], 0, 1) == [Write1, Write2];
    assert Events([ReadFile(1), WriteFile(0), WriteFile(1)], 0, 1) == [Read2, Write1, Write2];
  }

  lemma EntriesGranted(ps: seq<PermissionSaved>)
    requires |ps| == 2 && ps[0].name == "a" && ps[1].name == "b"
    ensures GrantedOf(ps, "a") == ps[0].granted && GrantedOf(ps, "b") == ps[1].granted
    ensures IndexOfName(ps, "a") == 0 && IndexOfName(ps, "b") == 1
  {
  }

  lemma MatchesOwnFile(config: Config, files: Files, t: Task)
    requires Query(config, files, t.pkgName) == Success(t.perms)
    ensures Matches(config, files, t)
  {
    hide Query;
  }

  lemma BeginBoth(config: Config, s: System, identifier: string)
    requires |s.tasks| == 1 && s.tasks[0].pkgName == identifier && s.calls == map[] && s.holder.None? && Names(s.tasks[0], "a")
    ensures Execute(config, s, [BeginGrant(0, identifier, "a", GRANTED), BeginGrant(1, identifier, "b", GRANTED)])
      == BothBegun(s, 0, 1, 0, "a", GRANTED, "b", GRANTED)
  {
    hide BothBegun, DoBeginGrant, Names;
    assert IndexOfPkg(s.tasks, identifier) == 0;
    ExecuteTwo(config, s, BeginGrant(0, identifier, "a", GRANTED), BeginGrant(1, identifier, "b", GRANTED));
    BothBegunByName(s, 0, 1, 0, "a", GRANTED, "b", GRANTED);
  }

  /** Two grants that both read before either writes: the task has both, the file one. */
  lemma GrantLost(config: Config, identifier: string)
    requires Usable(config, identifier)
    ensures
      var load := [BeginLoad(0, identifier, 1), FinishLoad(0)];
      var begin := [BeginGrant(0, identifier, "a", GRANTED), BeginGrant(1, identifier, "b", GRANTED)];
      var race := [ReadFile(0), ReadFile(1), WriteFile(0), WriteFile(1)];
      var s' := Execute(config, Start(StoreOf(identifier, NOT_GRANTED, NOT_GRANTED)), load + begin + race);
      exists t :: t in s'.tasks && GrantedOf(t.perms, "a") == GRANTED && GrantedOf(t.perms, "b") == GRANTED
                  && t.pkgName == identifier && identifier !in s'.failed && !Matches(config, s'.files, t)
  {
    hide Query, Changed, Execute, GrantedOf, IndexOfName, Matches, Next, Events, BothBegun, RaceRun;
    var files, ps := StoreOf(identifier, NOT_GRANTED, NOT_GRANTED), [Entry("a", NOT_GRANTED), Entry("b", NOT_GRANTED)];
    var load := [BeginLoad(0, identifier, 1), FinishLoad(0)];
    var begin := [BeginGrant(0, identifier, "a", GRANTED), BeginGrant(1, identifier, "b", GRANTED)];
    var race := [ReadFile(0), ReadFile(1), WriteFile(0), WriteFile(1)];
    StoreReads(config, identifier, NOT_GRANTED, NOT_GRANTED);
    EntriesGranted(ps);
    var s1 := LoadedSystem(identifier, 1, files, ps);
    LoadAtStart(config, identifier, files, ps);
    ExecuteAppend(config, Start(files), load + begin, race);
    ExecuteAppend(config, Start(files), load, begin);
    BeginBoth(config, s1, identifier);
    var begun := BothBegun(s1, 0, 1, 0, "a", GRANTED, "b", GRANTED);
    OnlyEventsRace(config, begun, race, 0, 1, identifier);
    EventsOfRace();
    assert Matches(config, files, s1.tasks[0]) by { MatchesOwnFile(config, files, s1.tasks[0]); }
    LoadedRaceMatchesIff(config, s1, race, 0, 1, 0, "a", GRANTED, "b", GRANTED, 0, 2, 1, 3);
  }

  /** A grant that read before a delete writes after it. */
  lemma DeletedFileReturns(config: Config, identifier: string)
    requires Usable(config, identifier)
    ensures
      var actions := [BeginGrant(0, identifier, "a", GRANTED), ReadFile(0)] + [DoDelete(identifier), WriteFile(0)];
      identifier in Execute(config, Start(StoreOf(identifier, NOT_GRANTED, NOT_GRANTED)), actions).files
  {
    hide Query, Execute, Changed, Encode;
    var files, ps := StoreOf(identifier, NOT_GRANTED, NOT_GRANTED), [Entry("a", NOT_GRANTED), Entry("b", NOT_GRANTED)];
    var begin, late := [BeginGrant(0, identifier, "a", GRANTED), ReadFile(0)], [DoDelete(identifier), WriteFile(0)];
    StoreReads(config, identifier, NOT_GRANTED, NOT_GRANTED);
    ExecuteAppend(config, Start(files), begin, late);
    ExecuteTwo(config, Start(files), begin[0], begin[1]);
    var s2 := Execute(config, Start(files), begin);
    ExecuteTwo(config, s2, late[0], late[1]);
  }

  /** A revoke that begins before its package is loaded and writes after the load has read: the new task
      grants what was revoked. */
  lemma RevokeMissesLoad(config: Config, identifier: string)
    requires Usable(config, identifier)
    ensures
      var begin := [BeginGrant(0, identifier, "a", NOT_GRANTED)] + [ReadFile(0)];
      var load := [BeginLoad(1, identifier, 1), FinishLoad(1)];
      var s' := Execute(config, Start(StoreOf(identifier, GRANTED, GRANTED)), begin + load + [WriteFile(0)]);
      exists t :: t in s'.tasks && GrantedOf(t.perms, "a") == GRANTED && t.pkgName == identifier
                  && identifier !in s'.failed && 0 !in s'.calls && !Matches(config, s'.files, t)
  {
    hide Query, Changed, Execute, GrantedOf, IndexOfName, Matches, Events, RaceRun, LoadRunEnd, AfterSync;
    var files, ps := StoreOf(identifier, GRANTED, GRANTED), [Entry("a", GRANTED), Entry("b", GRANTED)];
    StoreReads(config, identifier, GRANTED, GRANTED);
    EntriesGranted(ps);
    EventsOfRace();
    var s := Next(config, Start(files), BeginGrant(0, identifier, "a", NOT_GRANTED));
    RevokeRun(config, files, identifier, ps);
    LoadRaceMatchesIff(config, s, [ReadFile(0)], [], [WriteFile(0)], 0, 1, identifier, 1, "a", SetGranted(NOT_GRANTED));
    MakesNoDifferenceIff(ps, "a", SetGranted(NOT_GRANTED));
    GrantIsNeeded(ps, "a", NOT_GRANTED);
  }

  /** The run is one of a load between the read and the write of the revoke. */
  lemma RevokeRun(config: Config, files: Files, identifier: string, ps: seq<PermissionSaved>)
    requires Usable(config, identifier) && Query(config, files, identifier) == Success(ps)
    ensures
      var begin := [BeginGrant(0, identifier, "a", NOT_GRANTED)] + [ReadFile(0)];
      var load := [BeginLoad(1, identifier, 1), FinishLoad(1)];
      var s := Next(config, Start(files), BeginGrant(0, identifier, "a", NOT_GRANTED));
      && s == System([], files, map[0 := SyncPending(identifier, "a", SetGranted(NOT_GRANTED))], None, {})
      && LoadRun(config, s, [ReadFile(0)], [], [WriteFile(0)], 0, 1, identifier, 1)
      && Execute(config, Start(files), begin + load + [WriteFile(0)])
         == LoadRunEnd(config, s, [ReadFile(0)], [], [WriteFile(0)], 1, identifier, 1)
  {
    hide Query, Changed, Events, RaceRun;
    var begin, load := [BeginGrant(0, identifier, "a", NOT_GRANTED)], [BeginLoad(1, identifier, 1), FinishLoad(1)];
    var s := Next(config, Start(files), begin[0]);
    EventsOfRace();
    assert Events([], 0, 0) == [] by { NoEvents(); }
    ExecuteAppend(config, Start(files), begin + [ReadFile(0)] + load, [WriteFile(0)]);
    ExecuteAppend(config, Start(files), begin + [ReadFile(0)], load);
    ExecuteAppend(config, Start(files), begin, [ReadFile(0)]);
    ExecuteOne(config, Start(files), begin[0]);
    ExecuteOne(config, s, ReadFile(0));
    var s1 := Execute(config, s, [ReadFile(0)]);
    ExecuteTwo(config, s1, load[0], load[1]);
    var s2 := DoBeginLoad(config, s1, 1, identifier, 1);
    assert Execute(config, s2, []) == s2;
    OnlyEventsRace(config, s, [ReadFile(0)], 0, 0, identifier);
    OnlyEventsRace(config, s2, [], 0, 0, identifier);
    OnlyEventsRace(config, DoFinishLoad(s2, 1), [WriteFile(0)], 0, 0, identifier);
  }

  lemma NoEvents()
    ensures Events([], 0, 0) == []
  {
  }

  /** An upgrade that has read the file before a grant is written takes the grant back. */
  lemma UpgradeTakesGrantBack(config: Config, identifier: string)
    requires Usable(config, identifier) && config.maxPermissions >= 2
    ensures
      var begin := [BeginGrant(0, identifier, "a", GRANTED), BeginSave(1, identifier, [PermissionTrans("a", "", INUSE)], UPDATE)];
      var race := [ReadFile(0), WriteFile(0), WriteFile(1)];
      var s' := Execute(config, Start(StoreOf(identifier, NOT_GRANTED, NOT_GRANTED)), begin + race);
      && StoredGrant(s'.files, identifier, "a") == Some(NOT_GRANTED)
      && 0 !in s'.calls && 1 !in s'.calls
  {
    hide Query, Execute, GrantedOf, IndexOfName, Events, RaceRun, StoredGrant, SaveList, NamedIn, Next, InstallContest, GoodAt, DoBeginSave;
    var files, ps := StoreOf(identifier, NOT_GRANTED, NOT_GRANTED), [Entry("a", NOT_GRANTED), Entry("b", NOT_GRANTED)];
    var requests := [PermissionTrans("a", "", INUSE)];
    var begin := [BeginGrant(0, identifier, "a", GRANTED), BeginSave(1, identifier, requests, UPDATE)];
    var race := [ReadFile(0), WriteFile(0), WriteFile(1)];
    StoreReads(config, identifier, NOT_GRANTED, NOT_GRANTED);
    EntriesGranted(ps);
    StoredGrantOfQuery(config, files, identifier, "a");
    UpgradeContest(config, identifier, files, requests, ps);
    StoreIsGood(config, identifier, NOT_GRANTED, NOT_GRANTED);
    NamesItself(requests[0]);
    var s := Next(config, Start(files), begin[0]);
    var s2 := DoBeginSave(config, s, 1, identifier, requests, UPDATE);
    ExecuteAppend(config, Start(files), begin, race);
    ExecuteTwo(config, Start(files), begin[0], begin[1]);
    assert Next(config, s, begin[1]) == s2 by { NextIsBeginSave(config, s, 1, identifier, requests, UPDATE); }
    OnlyEventsRace(config, s2, race, 0, 1, identifier);
    EventsOfRace();
    DecisionSurvivesInstallIff(config, s, race, 0, 1, identifier, "a", GRANTED, requests, 0, 1, 2);
  }

  lemma NextIsBeginSave(config: Config, s: System, c: nat, identifier: string, requests: seq<PermissionTrans>, isUpdate: int)
    ensures Next(config, s, BeginSave(c, identifier, requests, isUpdate)) == DoBeginSave(config, s, c, identifier, requests, isUpdate)
  {
    hide DoBeginSave;
  }

  lemma UpgradeContest(config: Config, identifier: string, files: Files, requests: seq<PermissionTrans>, ps: seq<PermissionSaved>)
    requires Usable(config, identifier) && config.maxPermissions >= 1 && Query(config, files, identifier) == Success(ps)
    requires requests == [PermissionTrans("a", "", INUSE)]
    ensures
      var s := Next(config, Start(files), BeginGrant(0, identifier, "a", GRANTED));
      s.files == files && InstallContest(config, s, 0, 1, identifier, "a", SetGranted(GRANTED), requests, UPDATE)
  {
    hide Query, SaveList;
    OneRequest(requests[0]);
    SaveSucceeds(config, State([], files), identifier, requests, ps);
  }

  lemma NamesItself(p: PermissionTrans)
    ensures NamedIn([p], p.name)
  {
    assert [p][0] == p;
  }

  lemma StoreIsGood(config: Config, identifier: string, a: Status, b: Status)
    requires config.maxPermissions >= 2
    ensures GoodAt(config, StoreOf(identifier, a, b), identifier)
  {
    hide Decode, Encode;
    var ps := [Entry("a", a), Entry("b", b)];
    assert DistinctNames(ps);
    GoodListIsGoodFile(config, ps);
  }
}
