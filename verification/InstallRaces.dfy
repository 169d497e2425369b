/** An upgrade that overlaps a file update of the same package: the upgrade has read the old file and put
    its list together before the update reads. Of the two, whichever writes last without having seen the
    other's write takes it back. */
module InstallRaces {
  import opened Common
  import opened PmsTypes
  import opened PermissionCodec
  import opened Installation
  import opened PmsModel
  import opened FileSync
  import opened Store
  import opened Interleaving
  import opened UnlockedSyncs
  import opened LostUpdates

  /** The update reads and writes at the first two positions, the upgrade writes at the third. */
  predicate InstallOrder(events: seq<Event>, rc: nat, wc: nat, wd: nat) {
    && |events| == 3 && rc < wc < 3 && wd < 3
    && events[rc] == Read1 && events[wc] == Write1 && events[wd] == Write2
  }

  /** What the file reads as afterwards: ps before, `list` the upgrade's. */
  function FileAfterInstall(ps: seq<PermissionSaved>, list: seq<PermissionSaved>, n: string, ch: Change, rc: nat, wc: nat, wd: nat)
    : seq<PermissionSaved>
  {
    if wd < rc then AfterSync(NormalList(list), n, ch)
    else if wd < wc && Changed(ps, n, ch) != ps then NormalList(Changed(ps, n, ch))
    else NormalList(list)
  }

  lemma PlayThree(r: Race, events: seq<Event>, v: Rivals)
    requires |events| == 3
    ensures Play(r, events, v) == React(React(React(r, events[0], v), events[1], v), events[2], v)
  {
    hide React;
    assert events[1..][1..] == events[2..] && events[2..][1..] == [];
    var r1 := React(r, events[0], v);
    var r2 := React(r1, events[1], v);
    assert Play(r2, events[2..], v) == Play(React(r2, events[2], v), [], v);
  }

  lemma InstallRaceEnds(ps: seq<PermissionSaved>, list: seq<PermissionSaved>, events: seq<Event>, v: Rivals, rc: nat, wc: nat, wd: nat)
    requires InstallOrder(events, rc, wc, wd)
    ensures Play(Race(ps, Pending, Holding(list)), events, v) == Race(FileAfterInstall(ps, list, v.n1, v.c1, rc, wc, wd), Over, Over)
  {
    hide Changed, NormalList;
    PlayThree(Race(ps, Pending, Holding(list)), events, v);
  }

  /** Sync c is pending on a readable file, and install d may begin. */
  ghost predicate InstallContest(config: Config, s: System, c: nat, d: nat, pkg: string, n: string, ch: Change,
                                 requests: seq<PermissionTrans>, isUpdate: int)
  {
    && c in s.calls && d !in s.calls && s.calls[c] == SyncPending(pkg, n, ch) && NoOtherWriter(s, c, d, pkg)
    && Query(config, s.files, pkg).Success?
    && SaveList(config, s.files, pkg, requests, isUpdate).Success?
  }

  /** The install has its list, as far as it got before its write. */
  lemma InstallHoldsList(config: Config, s: System, c: nat, d: nat, pkg: string, n: string, ch: Change,
                         requests: seq<PermissionTrans>, isUpdate: int)
    requires InstallContest(config, s, c, d, pkg, n, ch, requests, isUpdate)
    ensures
      var list := SaveList(config, s.files, pkg, requests, isUpdate).value;
      && DoBeginSave(config, s, d, pkg, requests, isUpdate) == Begun(s, d, SaveRead(pkg, list))
      && requests != [] && TextsFit(list)
  {
    hide Query, Merged, OldPermissions, TextsFit;
    SavedIsGood(config, s.files, pkg, requests, isUpdate);
  }

  /** Every order, between any steps of other calls: what the file reads as when both are over. */
  lemma InstallRaceOutcome(config: Config, s: System, actions: seq<Action>, c: nat, d: nat, pkg: string, n: string, ch: Change,
                           requests: seq<PermissionTrans>, isUpdate: int, rc: nat, wc: nat, wd: nat)
    requires InstallContest(config, s, c, d, pkg, n, ch, requests, isUpdate)
    requires RaceRun(config, DoBeginSave(config, s, d, pkg, requests, isUpdate), actions, c, d, pkg)
    requires InstallOrder(Events(actions, c, d), rc, wc, wd)
    ensures
      var s' := Execute(config, DoBeginSave(config, s, d, pkg, requests, isUpdate), actions);
      var ps := Query(config, s.files, pkg).value;
      var list := SaveList(config, s.files, pkg, requests, isUpdate).value;
      && c !in s'.calls && d !in s'.calls
      && Query(config, s'.files, pkg) == Success(FileAfterInstall(ps, list, n, ch, rc, wc, wd))
  {
    hide Query, SaveList, TextsFit, Execute, RaceRun, Play, Events, InstallOrder, FileAfterInstall, DoBeginSave;
    var ps, v := Query(config, s.files, pkg).value, Rivals(n, ch, n, ch);
    var list := SaveList(config, s.files, pkg, requests, isUpdate).value;
    var begun := DoBeginSave(config, s, d, pkg, requests, isUpdate);
    QueriedTextsFit(config, s.files, pkg);
    InstallHoldsList(config, s, c, d, pkg, n, ch, requests, isUpdate);
    RunShowsPlay(config, begun, actions, c, d, pkg, v, Race(ps, Pending, Holding(list)));
    InstallRaceEnds(ps, list, Events(actions, c, d), v, rc, wc, wd);
  }

  /** An install that begins after the update's read could as well begin before it. */
  lemma InstallCommutes(config: Config, s: System, c: nat, d: nat, pkg: string, requests: seq<PermissionTrans>, isUpdate: int)
    requires c != d && SaveList(config, s.files, pkg, requests, isUpdate).Success?
    ensures DoBeginSave(config, DoReadFile(config, s, c), d, pkg, requests, isUpdate)
      == DoReadFile(config, DoBeginSave(config, s, d, pkg, requests, isUpdate), c)
  {
    hide SaveList, Query, Changed, DoReadFile;
    NotARemoval(config, s.files, pkg, requests, isUpdate);
    ReadKeepsRest(config, s, c);
    StepBesides(config, s, c, s.tasks, d, SaveRead(pkg, SaveList(config, s.files, pkg, requests, isUpdate).value));
  }

  /** A grant or flags update that begins after the install has its list could as well begin before it. */
  lemma BeginCommutesWithInstall(config: Config, s: System, begin: Action, d: nat, pkg: string, requests: seq<PermissionTrans>, isUpdate: int)
    requires begin.BeginGrant? || begin.BeginRuntime? || begin.BeginFlags?
    requires begin.c != d && SaveList(config, s.files, pkg, requests, isUpdate).Success?
    ensures Next(config, DoBeginSave(config, s, d, pkg, requests, isUpdate), begin)
      == DoBeginSave(config, Next(config, s, begin), d, pkg, requests, isUpdate)
  {
    hide SaveList, Next;
    NotARemoval(config, s.files, pkg, requests, isUpdate);
    var s1 := DoBeginSave(config, s, d, pkg, requests, isUpdate);
    var tasks, a := BeginBesides(config, s, s1, begin);
    if d !in s.calls {
      assert s.calls[d := s1.calls[d]][begin.c := a] == s.calls[begin.c := a][d := s1.calls[d]];
    }
  }

  lemma NotARemoval(config: Config, files: Files, pkg: string, requests: seq<PermissionTrans>, isUpdate: int)
    requires SaveList(config, files, pkg, requests, isUpdate).Success?
    ensures requests != []
  {
    hide OldPermissions;
  }

  lemma ReadKeepsRest(config: Config, s: System, c: nat)
    ensures var s1 := DoReadFile(config, s, c);
      s1.tasks == s.tasks && s1.files == s.files && forall d :: d != c ==> (d in s1.calls <==> d in s.calls)
  {
    hide Query, Changed;
  }

  // ---- user decisions

  lemma StoredGrantOfQuery(config: Config, files: Files, pkg: string, n: string)
    requires Query(config, files, pkg).Success?
    ensures
      var ps := Query(config, files, pkg).value;
      StoredGrant(files, pkg, n) == if IndexOfName(ps, n) < |ps| then Some(GrantedOf(ps, n)) else None
  {
    hide Decode;
  }

  /** The list of an upgrade has the granted value the file had, and the names of the request. */
  lemma UpgradeListKeepsGrant(config: Config, s: System, pkg: string, requests: seq<PermissionTrans>, n: string)
    requires SaveList(config, s.files, pkg, requests, UPDATE).Success? && Query(config, s.files, pkg).Success?
    requires GoodAt(config, s.files, pkg) && NamedIn(requests, n) && StoredGrant(s.files, pkg, n).Some?
    ensures
      var list := SaveList(config, s.files, pkg, requests, UPDATE).value;
      && IndexOfName(list, n) < |list| && GrantedOf(NormalList(list), n) == StoredGrant(s.files, pkg, n).value
      && SameNames(FirstOccurrences(requests), list)
  {
    hide Decode, NormalList, IndexOfName, FirstOccurrences, Merged, NamedIn, GrantedOf;
    var list, firsts := SaveList(config, s.files, pkg, requests, UPDATE).value, FirstOccurrences(requests);
    var ps := Query(config, s.files, pkg).value;
    StoredGrantOfQuery(config, s.files, pkg, n);
    FirstOccurrencesNames(requests, n);
    FirstOccurrencesDistinct(requests);
    MergedKeepsGrant(config.catalogue, ps, firsts, n);
    GrantedOfNormal(list, n);
    assert IndexOfName(ps, n) < |ps| && GrantedOf(ps, n) in {0, 1} by { GoodGranted(ps, n); }
  }

  lemma GoodGranted(ps: seq<PermissionSaved>, n: string)
    requires AllStorable(ps) && IndexOfName(ps, n) < |ps|
    ensures GrantedOf(ps, n) in {0, 1}
  {
    hide IndexOfName;
  }

  lemma MergedKeepsGrant(catalogue: seq<PermissionDef>, ps: seq<PermissionSaved>, firsts: seq<PermissionTrans>, n: string)
    requires DistinctNames(ps) && NamedIn(firsts, n) && IndexOfName(ps, n) < |ps|
    requires forall i, j :: 0 <= i < j < |firsts| ==> firsts[i].name != firsts[j].name
    ensures
      var list := Merged(catalogue, ps, firsts);
      IndexOfName(list, n) < |list| && GrantedOf(list, n) == GrantedOf(ps, n) && SameNames(firsts, list)
  {
    hide IndexOfName, Inherited, DefaultGranted;
    var list := Merged(catalogue, ps, firsts);
    var i :| 0 <= i < |firsts| && firsts[i].name == n;
    assert list[i].name == n && IndexOfName(list, n) == i;
    InheritedIsLookup(ps, n, DefaultGranted(catalogue, n));
  }

  lemma GrantedOfNormal(ps: seq<PermissionSaved>, n: string)
    ensures |NormalList(ps)| == |ps| && IndexOfName(NormalList(ps), n) == IndexOfName(ps, n)
    ensures IndexOfName(ps, n) < |ps| ==> GrantedOf(NormalList(ps), n) == if GrantedOf(ps, n) == 0 then 0 else 1
  {
    SameNamesSameIndex(ps, NormalList(ps), n);
  }

  /** A list with the decision, as written. */
  lemma WrittenDecision(ps: seq<PermissionSaved>, n: string, g: Status)
    requires IndexOfName(ps, n) < |ps|
    ensures
      var qs := NormalList(Changed(ps, n, SetGranted(g)));
      IndexOfName(qs, n) < |qs| && GrantedOf(qs, n) == g && SameShape(ps, qs)
  {
    hide IndexOfName;
    var qs := Changed(ps, n, SetGranted(g));
    ChangeKeepsNames(ps, n, SetGranted(g));
    GrantedAfterGrant(ps, n, g, n);
    GrantedOfNormal(qs, n);
  }

  /** A grant or revoke that overlaps an upgrade which keeps the permission: the file has the user's
      decision afterwards if and only if the upgrade does not write last. If the upgrade's write falls
      between the read and the write of the grant, it is the upgrade that is taken back. */
  lemma DecisionSurvivesInstallIff(config: Config, s: System, actions: seq<Action>, c: nat, d: nat, pkg: string, n: string, g: Status,
                                   requests: seq<PermissionTrans>, rc: nat, wc: nat, wd: nat)
    requires InstallContest(config, s, c, d, pkg, n, SetGranted(g), requests, UPDATE)
    requires GoodAt(config, s.files, pkg) && NamedIn(requests, n)
    requires StoredGrant(s.files, pkg, n).Some? && StoredGrant(s.files, pkg, n) != Some(g)
    requires RaceRun(config, DoBeginSave(config, s, d, pkg, requests, UPDATE), actions, c, d, pkg)
    requires InstallOrder(Events(actions, c, d), rc, wc, wd)
    ensures
      var s' := Execute(config, DoBeginSave(config, s, d, pkg, requests, UPDATE), actions);
      var q := Query(config, s'.files, pkg);
      && c !in s'.calls && d !in s'.calls && q.Success?
      && StoredGrant(s'.files, pkg, n) == (if wd < wc then Some(g) else StoredGrant(s.files, pkg, n))
      && (if rc < wd < wc then SameShape(Query(config, s.files, pkg).value, q.value)
          else SameNames(FirstOccurrences(requests), q.value))
  {
    hide Query, SaveList, Execute, RaceRun, Events, DoBeginSave, StoredGrant, NamedIn, GoodAt, Changed, NormalList,
      GrantedOf, IndexOfName, AfterSync;
    var ps := Query(config, s.files, pkg).value;
    var list := SaveList(config, s.files, pkg, requests, UPDATE).value;
    var s' := Execute(config, DoBeginSave(config, s, d, pkg, requests, UPDATE), actions);
    InstallRaceOutcome(config, s, actions, c, d, pkg, n, SetGranted(g), requests, UPDATE, rc, wc, wd);
    StoredGrantOfQuery(config, s.files, pkg, n);
    StoredGrantOfQuery(config, s'.files, pkg, n);
    UpgradeListKeepsGrant(config, s, pkg, requests, n);
    GrantedOfNormal(list, n);
    NormalKeepsNames(FirstOccurrences(requests), list);
    GrantIsNeeded(ps, n, g);
    WrittenDecision(ps, n, g);
    WrittenDecision(list, n, g);
    SyncOfNormal(list, n, SetGranted(g));
    if wd < rc {
      ShapeKeepsNames(FirstOccurrences(requests), list, NormalList(Changed(list, n, SetGranted(g))));
    }
  }

  lemma NormalKeepsNames(requests: seq<PermissionTrans>, ps: seq<PermissionSaved>)
    requires SameNames(requests, ps)
    ensures SameNames(requests, NormalList(ps))
  {
  }

  lemma ShapeKeepsNames(requests: seq<PermissionTrans>, ps: seq<PermissionSaved>, qs: seq<PermissionSaved>)
    requires SameNames(requests, ps) && SameShape(ps, qs)
    ensures SameNames(requests, qs)
  {
  }
}
