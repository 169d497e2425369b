/** When two overlapping file updates of one package both survive. The updates of the service run their
    read and their write of the package file without the mutex, so the two reads and two writes of two
    calls come in any of six orders, between any steps of calls on other packages. */
module LostUpdates {
  import opened Common
  import opened PmsTypes
  import opened PermissionCodec
  import opened PmsModel
  import opened FileSync
  import opened Coherence
  import opened Interleaving

  // ---- the race as the file sees it

  /** The changes the two calls make. */
  datatype Rivals = Rivals(n1: string, c1: Change, n2: string, c2: Change)

  datatype Progress = Pending | Holding(list: seq<PermissionSaved>) | Over

  /** The list the file reads as, and how far the two calls have come. */
  datatype Race = Race(file: seq<PermissionSaved>, one: Progress, two: Progress)

  datatype Event = Read1 | Write1 | Read2 | Write2

  function AfterRead(file: seq<PermissionSaved>, p: Progress, permName: string, c: Change): Progress {
    if !p.Pending? then p
    else if Changed(file, permName, c) == file then Over
    else Holding(Changed(file, permName, c))
  }

  function AfterWrite(file: seq<PermissionSaved>, p: Progress): seq<PermissionSaved> {
    if p.Holding? then NormalList(p.list) else file
  }

  function Stopped(p: Progress): Progress { if p.Holding? then Over else p }

  function React(r: Race, e: Event, v: Rivals): Race {
    match e
    case Read1 => r.(one := AfterRead(r.file, r.one, v.n1, v.c1))
    case Write1 => r.(file := AfterWrite(r.file, r.one), one := Stopped(r.one))
    case Read2 => r.(two := AfterRead(r.file, r.two, v.n2, v.c2))
    case Write2 => r.(file := AfterWrite(r.file, r.two), two := Stopped(r.two))
  }

  function Play(r: Race, events: seq<Event>, v: Rivals): Race
    decreases |events|
  {
    if events == [] then r else Play(React(r, events[0], v), events[1..], v)
  }

  /** Each call reads and then writes, at these positions. */
  predicate Order(events: seq<Event>, rc: nat, wc: nat, rd: nat, wd: nat) {
    && |events| == 4 && rc < wc < 4 && rd < wd < 4
    && events[rc] == Read1 && events[wc] == Write1 && events[rd] == Read2 && events[wd] == Write2
  }

  /** One call writes before the other one reads. */
  predicate Serial(rc: nat, wc: nat, rd: nat, wd: nat) { wc < rd || wd < rc }

  /** The list with both changes, up to the reduction of granted values a write makes. */
  function Both(ps: seq<PermissionSaved>, v: Rivals): seq<PermissionSaved> {
    Changed(Changed(NormalList(ps), v.n1, v.c1), v.n2, v.c2)
  }

  /** No change is lost: the calls do not overlap, the later writer has nothing to write, or the earlier
      one has nothing to lose. */
  predicate NothingLost(ps: seq<PermissionSaved>, v: Rivals, rc: nat, wc: nat, rd: nat, wd: nat) {
    var n := NormalList(ps);
    || Serial(rc, wc, rd, wd)
    || (if wc < wd then Changed(ps, v.n2, v.c2) == ps || Changed(n, v.n1, v.c1) == n
                   else Changed(ps, v.n1, v.c1) == ps || Changed(n, v.n2, v.c2) == n)
  }

  /** The change of the call that writes last. */
  function LastWriters(ps: seq<PermissionSaved>, v: Rivals, wc: nat, wd: nat): seq<PermissionSaved> {
    if wc < wd then Changed(NormalList(ps), v.n2, v.c2) else Changed(NormalList(ps), v.n1, v.c1)
  }

  lemma PlayFour(r: Race, events: seq<Event>, v: Rivals)
    requires |events| == 4
    ensures Play(r, events, v) == React(React(React(React(r, events[0], v), events[1], v), events[2], v), events[3], v)
  {
    hide React;
    assert events[1..][1..] == events[2..] && events[2..][1..] == events[3..] && events[3..][1..] == [];
    var r1 := React(r, events[0], v);
    var r2 := React(r1, events[1], v);
    var r3 := React(r2, events[2], v);
    assert Play(r3, events[3..], v) == Play(React(r3, events[3], v), [], v);
    assert Play(r1, events[1..], v) == Play(r2, events[2..], v);
  }

  /** Every order leaves both calls over and the file with the list this function gives. */
  function FileAfter(ps: seq<PermissionSaved>, v: Rivals, rc: nat, wc: nat, rd: nat, wd: nat): seq<PermissionSaved> {
    if wc < rd then AfterSync(AfterSync(ps, v.n1, v.c1), v.n2, v.c2)
    else if wd < rc then AfterSync(AfterSync(ps, v.n2, v.c2), v.n1, v.c1)
    else if wc < wd then (if Changed(ps, v.n2, v.c2) == ps then AfterSync(ps, v.n1, v.c1) else NormalList(Changed(ps, v.n2, v.c2)))
    else (if Changed(ps, v.n1, v.c1) == ps then AfterSync(ps, v.n2, v.c2) else NormalList(Changed(ps, v.n1, v.c1)))
  }

  lemma RaceEnds(ps: seq<PermissionSaved>, events: seq<Event>, v: Rivals, rc: nat, wc: nat, rd: nat, wd: nat)
    requires Order(events, rc, wc, rd, wd)
    ensures Play(Race(ps, Pending, Pending), events, v) == Race(FileAfter(ps, v, rc, wc, rd, wd), Over, Over)
  {
    hide Changed, NormalList;
    PlayFour(Race(ps, Pending, Pending), events, v);
  }

  lemma CleanStaysClean(ps: seq<PermissionSaved>, permName: string, c: Change)
    ensures Changed(ps, permName, c) == ps ==> Changed(NormalList(ps), permName, c) == NormalList(ps)
  {
    hide Changed, NormalList;
    NormalOfChanged(ps, permName, c);
  }

  /** The change of the first is missing from the list with the second only, unless it had no effect. */
  lemma MissingIff(ps: seq<PermissionSaved>, v: Rivals)
    requires Independent(v.n1, v.c1, v.n2, v.c2)
    ensures Changed(ps, v.n2, v.c2) == Changed(Changed(ps, v.n1, v.c1), v.n2, v.c2) <==> Changed(ps, v.n1, v.c1) == ps
  {
    ChangeKeepsNames(ps, v.n1, v.c1);
    var i, qs := IndexOfName(ps, v.n1), Changed(ps, v.n1, v.c1);
    if qs != ps {
      assert Changed(qs, v.n2, v.c2)[i] != Changed(ps, v.n2, v.c2)[i];
    }
  }

  lemma NormalFileAfter(ps: seq<PermissionSaved>, v: Rivals, rc: nat, wc: nat, rd: nat, wd: nat)
    requires Independent(v.n1, v.c1, v.n2, v.c2)
    ensures NormalList(FileAfter(ps, v, rc, wc, rd, wd))
      == if NothingLost(ps, v, rc, wc, rd, wd) then Both(ps, v) else LastWriters(ps, v, wc, wd)
  {
    hide Changed, NormalList, AfterSync;
    var n := NormalList(ps);
    NormalOfAfterSync(ps, v.n1, v.c1);
    NormalOfAfterSync(ps, v.n2, v.c2);
    NormalOfAfterSync(AfterSync(ps, v.n1, v.c1), v.n2, v.c2);
    NormalOfAfterSync(AfterSync(ps, v.n2, v.c2), v.n1, v.c1);
    NormalOfChanged(ps, v.n1, v.c1);
    NormalOfChanged(ps, v.n2, v.c2);
    NormalTwice(Changed(ps, v.n1, v.c1));
    NormalTwice(Changed(ps, v.n2, v.c2));
    CleanStaysClean(ps, v.n1, v.c1);
    CleanStaysClean(ps, v.n2, v.c2);
    ChangesCommute(n, v.n1, v.c1, v.n2, v.c2);
  }

  /** Both changes are on file afterwards exactly when nothing is lost; otherwise the file has the last
      writer's list. */
  lemma RaceOutcome(ps: seq<PermissionSaved>, v: Rivals, rc: nat, wc: nat, rd: nat, wd: nat)
    requires Independent(v.n1, v.c1, v.n2, v.c2)
    ensures
      var after := NormalList(FileAfter(ps, v, rc, wc, rd, wd));
      && (after == Both(ps, v) <==> NothingLost(ps, v, rc, wc, rd, wd))
      && (after != Both(ps, v) ==> after == LastWriters(ps, v, wc, wd))
  {
    hide Changed, NormalList, FileAfter;
    var n := NormalList(ps);
    NormalFileAfter(ps, v, rc, wc, rd, wd);
    ChangesCommute(n, v.n1, v.c1, v.n2, v.c2);
    MissingIff(n, v);
    MissingIff(n, Rivals(v.n2, v.c2, v.n1, v.c1));
  }

  // ---- the race in the running service

  function EventOf(action: Action, c: nat, d: nat): Option<Event> {
    match action
    case ReadFile(e) => if e == c then Some(Read1) else if e == d then Some(Read2) else None
    case WriteFile(e) => if e == c then Some(Write1) else if e == d then Some(Write2) else None
    case _ => None
  }

  /** The reads and writes of the two calls among all actions. */
  function Events(actions: seq<Action>, c: nat, d: nat): seq<Event>
    decreases |actions|
  {
    if actions == [] then []
    else
      var rest := Events(actions[1..], c, d);
      match EventOf(actions[0], c, d) case Some(e) => [e] + rest case None => rest
  }

  /** The action is no part of the two calls and starts nothing else on the package's file; loads and
      unloads of the package are allowed. */
  ghost predicate Aside(s: System, action: Action, c: nat, d: nat, pkg: string) {
    match action
    case BeginGrant(e, identifier, _, _) => e != c && e != d && identifier != pkg
    case BeginRuntime(e, uid, _, _) =>
      var k := IndexOfUid(s.tasks, uid);
      e != c && e != d && (k < |s.tasks| ==> s.tasks[k].pkgName != pkg)
    case BeginFlags(e, identifier, _, _) => e != c && e != d && identifier != pkg
    case BeginSave(e, identifier, _, _) => e != c && e != d && identifier != pkg
    case BeginLoad(e, _, _) => e != c && e != d
    case ReadFile(e) => e != c && e != d
    case WriteFile(e) => e != c && e != d
    case FailFile(e, _) => e != c && e != d
    case DoDelete(identifier) => identifier != pkg
    case _ => true
  }

  ghost predicate RaceRun(config: Config, s: System, actions: seq<Action>, c: nat, d: nat, pkg: string)
    decreases |actions|
  {
    actions == [] || ((EventOf(actions[0], c, d).Some? || Aside(s, actions[0], c, d, pkg))
                      && RaceRun(config, Next(config, s, actions[0]), actions[1..], c, d, pkg))
  }

  ghost predicate ShowsCall(s: System, c: nat, pkg: string, permName: string, change: Change, p: Progress) {
    match p
    case Pending => c in s.calls && s.calls[c] == SyncPending(pkg, permName, change)
    case Holding(list) =>
      c in s.calls && TextsFit(list)
      && (s.calls[c] == SyncRead(pkg, permName, change, list) || s.calls[c] == SaveRead(pkg, list))
    case Over => c !in s.calls
  }

  /** Only the two calls may rewrite the package's file. */
  ghost predicate NoOtherWriter(s: System, c: nat, d: nat, pkg: string) {
    forall e :: e in s.calls && e != c && e != d && s.calls[e].pkg == pkg ==> s.calls[e].LoadHeld?
  }

  ghost predicate Shows(config: Config, s: System, c: nat, d: nat, pkg: string, v: Rivals, r: Race) {
    && Query(config, s.files, pkg) == Success(r.file) && TextsFit(r.file)
    && ShowsCall(s, c, pkg, v.n1, v.c1, r.one)
    && ShowsCall(s, d, pkg, v.n2, v.c2, r.two)
    && NoOtherWriter(s, c, d, pkg)
  }

  lemma ChangeKeepsFit(ps: seq<PermissionSaved>, permName: string, c: Change)
    requires TextsFit(ps)
    ensures TextsFit(Changed(ps, permName, c)) && TextsFit(NormalList(ps))
  {
  }

  lemma ReadIsShown(config: Config, s: System, c: nat, pkg: string, permName: string, change: Change, file: seq<PermissionSaved>, p: Progress)
    requires Query(config, s.files, pkg) == Success(file) && TextsFit(file) && ShowsCall(s, c, pkg, permName, change, p)
    ensures
      var s' := DoReadFile(config, s, c);
      && ShowsCall(s', c, pkg, permName, change, AfterRead(file, p, permName, change))
      && s'.files == s.files && s'.calls - {c} == s.calls - {c}
  {
    hide Query, Changed, TextsFit;
    ChangeKeepsFit(file, permName, change);
  }

  lemma WriteIsShown(config: Config, s: System, c: nat, pkg: string, permName: string, change: Change, file: seq<PermissionSaved>, p: Progress)
    requires Query(config, s.files, pkg) == Success(file) && TextsFit(file) && ShowsCall(s, c, pkg, permName, change, p)
    ensures
      var s' := DoWriteFile(s, c);
      && ShowsCall(s', c, pkg, permName, change, Stopped(p))
      && Query(config, s'.files, pkg) == Success(AfterWrite(file, p)) && TextsFit(AfterWrite(file, p))
      && s'.calls - {c} == s.calls - {c}
  {
    hide Query, NormalList, TextsFit, Written;
    if p.Holding? {
      ReadAfterAnyWrite(config, s.files, pkg, p.list);
      ChangeKeepsFit(p.list, permName, change);
    }
  }

  /** A step of one of the two calls changes nothing the other one or a third one relies on. */
  lemma OthersUnmoved(s: System, s': System, c: nat, e: nat)
    requires s'.calls - {c} == s.calls - {c} && e != c
    ensures e in s'.calls <==> e in s.calls
    ensures e in s.calls ==> s'.calls[e] == s.calls[e]
  {
    assert e in s.calls <==> e in s.calls - {c};
    assert e in s'.calls <==> e in s'.calls - {c};
    if e in s.calls {
      assert (s.calls - {c})[e] == s.calls[e];
      assert (s'.calls - {c})[e] == s'.calls[e];
    }
  }

  lemma EventIsShown(config: Config, s: System, action: Action, c: nat, d: nat, pkg: string, v: Rivals, r: Race)
    requires Shows(config, s, c, d, pkg, v, r) && c != d && EventOf(action, c, d).Some?
    ensures Shows(config, Next(config, s, action), c, d, pkg, v, React(r, EventOf(action, c, d).value, v))
  {
    hide Query, TextsFit, DoReadFile, DoWriteFile, AfterRead, AfterWrite;
    var s' := Next(config, s, action);
    var e := action.c;
    var permName, change, p := if e == c then v.n1 else v.n2, if e == c then v.c1 else v.c2, if e == c then r.one else r.two;
    if action.ReadFile? {
      ReadIsShown(config, s, e, pkg, permName, change, r.file, p);
    } else {
      WriteIsShown(config, s, e, pkg, permName, change, r.file, p);
    }
    forall x | x != e ensures (x in s'.calls <==> x in s.calls) && (x in s.calls ==> s'.calls[x] == s.calls[x]) {
      OthersUnmoved(s, s', e, x);
    }
  }

  lemma AsideBeginIsShown(config: Config, s: System, action: Action, c: nat, d: nat, pkg: string, v: Rivals, r: Race)
    requires Shows(config, s, c, d, pkg, v, r) && Aside(s, action, c, d, pkg)
    requires action.BeginGrant? || action.BeginRuntime? || action.BeginFlags? || action.BeginLoad?
    ensures Shows(config, Next(config, s, action), c, d, pkg, v, r)
  {
    hide Query, TextsFit, Modified, Names, IsValidFlags;
  }

  lemma AsideSaveIsShown(config: Config, s: System, action: Action, c: nat, d: nat, pkg: string, v: Rivals, r: Race)
    requires Shows(config, s, c, d, pkg, v, r) && Aside(s, action, c, d, pkg)
    requires action.BeginSave? || action.DoDelete?
    ensures Shows(config, Next(config, s, action), c, d, pkg, v, r)
  {
    hide Query, TextsFit, SaveList;
    SameFileSameQuery(config, s.files, s.files - {action.identifier}, action.identifier, pkg);
  }

  lemma AsideFileIsShown(config: Config, s: System, action: Action, c: nat, d: nat, pkg: string, v: Rivals, r: Race)
    requires Shows(config, s, c, d, pkg, v, r) && Aside(s, action, c, d, pkg)
    requires action.ReadFile? || action.WriteFile? || action.FailFile?
    ensures Shows(config, Next(config, s, action), c, d, pkg, v, r)
  {
    hide Query, TextsFit, Encode, Changed;
    var s' := Next(config, s, action);
    if s' != s {
      SameFileSameQuery(config, s.files, s'.files, s.calls[action.c].pkg, pkg);
    }
  }

  lemma AsideIsShown(config: Config, s: System, action: Action, c: nat, d: nat, pkg: string, v: Rivals, r: Race)
    requires Shows(config, s, c, d, pkg, v, r) && Aside(s, action, c, d, pkg)
    ensures Shows(config, Next(config, s, action), c, d, pkg, v, r)
  {
    match action
    case ReadFile(_) => AsideFileIsShown(config, s, action, c, d, pkg, v, r);
    case WriteFile(_) => AsideFileIsShown(config, s, action, c, d, pkg, v, r);
    case FailFile(_, _) => AsideFileIsShown(config, s, action, c, d, pkg, v, r);
    case BeginSave(_, _, _, _) => AsideSaveIsShown(config, s, action, c, d, pkg, v, r);
    case DoDelete(_) => AsideSaveIsShown(config, s, action, c, d, pkg, v, r);
    case FinishLoad(_) => hide Query, TextsFit;
    case AbortLoad(_) => hide Query, TextsFit;
    case DoUnLoad(_) => hide Query, TextsFit;
    case _ => AsideBeginIsShown(config, s, action, c, d, pkg, v, r);
  }

  lemma {:induction false} RunShowsPlay(config: Config, s: System, actions: seq<Action>, c: nat, d: nat, pkg: string, v: Rivals, r: Race)
    requires Shows(config, s, c, d, pkg, v, r) && c != d && RaceRun(config, s, actions, c, d, pkg)
    ensures Shows(config, Execute(config, s, actions), c, d, pkg, v, Play(r, Events(actions, c, d), v))
    decreases |actions|
  {
    hide Shows, Aside, Next, React;
    if actions == [] {
    } else {
      var s1 := Next(config, s, actions[0]);
      var rest := Events(actions[1..], c, d);
      match EventOf(actions[0], c, d) {
        case Some(e) =>
          EventIsShown(config, s, actions[0], c, d, pkg, v, r);
          RunShowsPlay(config, s1, actions[1..], c, d, pkg, v, React(r, e, v));
          assert ([e] + rest)[1..] == rest;
        case None =>
          AsideIsShown(config, s, actions[0], c, d, pkg, v, r);
          RunShowsPlay(config, s1, actions[1..], c, d, pkg, v, r);
      }
    }
  }

  /** Two syncs of one readable file are under way, and no other call can write the file. */
  ghost predicate Contested(config: Config, s: System, c: nat, d: nat, pkg: string, v: Rivals) {
    && c != d && c in s.calls && d in s.calls
    && s.calls[c] == SyncPending(pkg, v.n1, v.c1) && s.calls[d] == SyncPending(pkg, v.n2, v.c2)
    && NoOtherWriter(s, c, d, pkg)
    && Query(config, s.files, pkg).Success?
  }

  lemma ContestEnds(config: Config, s: System, actions: seq<Action>, c: nat, d: nat, pkg: string, v: Rivals,
                    rc: nat, wc: nat, rd: nat, wd: nat)
    requires Contested(config, s, c, d, pkg, v) && RaceRun(config, s, actions, c, d, pkg)
    requires Order(Events(actions, c, d), rc, wc, rd, wd)
    ensures
      var s' := Execute(config, s, actions);
      && c !in s'.calls && d !in s'.calls
      && Query(config, s'.files, pkg) == Success(FileAfter(Query(config, s.files, pkg).value, v, rc, wc, rd, wd))
  {
    hide Query, TextsFit, Execute, RaceRun, Play, Events, Order, FileAfter;
    var ps := Query(config, s.files, pkg).value;
    QueriedTextsFit(config, s.files, pkg);
    RunShowsPlay(config, s, actions, c, d, pkg, v, Race(ps, Pending, Pending));
    RaceEnds(ps, Events(actions, c, d), v, rc, wc, rd, wd);
  }

  /** Two completed file updates of different fields or names, in any order of their reads and writes and
      between any steps of other calls: the file has both changes if and only if nothing is lost, and
      otherwise it has the list of the call that wrote last. */
  lemma BothChangesSurviveIff(config: Config, s: System, actions: seq<Action>, c: nat, d: nat, pkg: string, v: Rivals,
                              rc: nat, wc: nat, rd: nat, wd: nat)
    requires Contested(config, s, c, d, pkg, v) && RaceRun(config, s, actions, c, d, pkg)
    requires Order(Events(actions, c, d), rc, wc, rd, wd)
    requires Independent(v.n1, v.c1, v.n2, v.c2)
    ensures
      var s' := Execute(config, s, actions);
      var ps := Query(config, s.files, pkg).value;
      var q := Query(config, s'.files, pkg);
      && c !in s'.calls && d !in s'.calls && q.Success?
      && (NormalList(q.value) == Both(ps, v) <==> NothingLost(ps, v, rc, wc, rd, wd))
      && (NormalList(q.value) != Both(ps, v) ==> NormalList(q.value) == LastWriters(ps, v, wc, wd))
  {
    hide Query, Execute, RaceRun, Events, Order, FileAfter, NormalList, NothingLost;
    ContestEnds(config, s, actions, c, d, pkg, v, rc, wc, rd, wd);
    RaceOutcome(Query(config, s.files, pkg).value, v, rc, wc, rd, wd);
  }

  /** When both calls have something to write, both changes survive exactly if one call's write comes
      before the other one's read. */
  lemma BothNeededSurviveIff(config: Config, s: System, actions: seq<Action>, c: nat, d: nat, pkg: string, v: Rivals,
                             rc: nat, wc: nat, rd: nat, wd: nat)
    requires Contested(config, s, c, d, pkg, v) && RaceRun(config, s, actions, c, d, pkg)
    requires Order(Events(actions, c, d), rc, wc, rd, wd)
    requires Independent(v.n1, v.c1, v.n2, v.c2)
    requires
      var n := NormalList(Query(config, s.files, pkg).value);
      Changed(n, v.n1, v.c1) != n && Changed(n, v.n2, v.c2) != n
    ensures
      var ps := Query(config, s.files, pkg).value;
      var q := Query(config, Execute(config, s, actions).files, pkg);
      q == Success(if Serial(rc, wc, rd, wd) then Both(ps, v) else LastWriters(ps, v, wc, wd))
      && Both(ps, v) != LastWriters(ps, v, wc, wd)
  {
    hide Query, Execute, RaceRun, Events, Order, NormalList, Changed, FileAfter;
    var ps := Query(config, s.files, pkg).value;
    var n := NormalList(ps);
    ContestEnds(config, s, actions, c, d, pkg, v, rc, wc, rd, wd);
    NormalFileAfter(ps, v, rc, wc, rd, wd);
    CleanStaysClean(ps, v.n1, v.c1);
    CleanStaysClean(ps, v.n2, v.c2);
    DirtyFileIsNormal(ps, v, rc, wc, rd, wd);
    ChangesCommute(n, v.n1, v.c1, v.n2, v.c2);
    MissingIff(n, v);
    MissingIff(n, Rivals(v.n2, v.c2, v.n1, v.c1));
  }

  /** Something was written last, so the granted values are reduced already. */
  lemma DirtyFileIsNormal(ps: seq<PermissionSaved>, v: Rivals, rc: nat, wc: nat, rd: nat, wd: nat)
    requires Changed(ps, v.n1, v.c1) != ps && Changed(ps, v.n2, v.c2) != ps
    ensures NormalList(FileAfter(ps, v, rc, wc, rd, wd)) == FileAfter(ps, v, rc, wc, rd, wd)
  {
    hide Changed, NormalList;
    var one, two := Changed(ps, v.n1, v.c1), Changed(ps, v.n2, v.c2);
    NormalTwice(one);
    NormalTwice(two);
    NormalTwice(Changed(NormalList(one), v.n2, v.c2));
    NormalTwice(Changed(NormalList(two), v.n1, v.c1));
  }

  // ---- the race on a loaded package

  /** The memory steps of two grants or revokes that reach task k. */
  function BothBegun(s: System, c: nat, d: nat, k: nat, n1: string, g1: Status, n2: string, g2: Status): System
    requires k < |s.tasks|
  {
    GrantOnTask(GrantOnTask(s, c, k, n1, g1), d, k, n2, g2)
  }

  /** Calls by package name reach the first task of the package, calls by uid the first of the uid. */
  lemma BothBegunByName(s: System, c: nat, d: nat, k: nat, n1: string, g1: Status, n2: string, g2: Status)
    requires c !in s.calls && d !in s.calls && c != d && s.holder.None?
    requires k < |s.tasks| && Names(s.tasks[k], n1)
    ensures
      var t, begun := s.tasks[k], BothBegun(s, c, d, k, n1, g1, n2, g2);
      && (IndexOfPkg(s.tasks, t.pkgName) == k ==>
            DoBeginGrant(DoBeginGrant(s, c, t.pkgName, n1, g1), d, t.pkgName, n2, g2) == begun)
      && (IndexOfUid(s.tasks, t.uid) == k ==>
            DoBeginRuntime(DoBeginRuntime(s, c, t.uid, n1, g1), d, t.uid, n2, g2) == begun)
  {
    hide GrantOnTask, IndexOfPkg, IndexOfUid, Names;
    var t, s1 := s.tasks[k], GrantOnTask(s, c, k, n1, g1);
    GrantKeepsLookups(s, c, k, n1, g1);
  }

  lemma GrantKeepsLookups(s: System, c: nat, k: nat, n: string, g: Status)
    requires k < |s.tasks|
    ensures
      var s1 := GrantOnTask(s, c, k, n, g);
      && |s1.tasks| == |s.tasks| && s1.holder == s.holder
      && (Names(s.tasks[k], n) ==> s1.calls.Keys == s.calls.Keys + {c})
      && IndexOfPkg(s1.tasks, s.tasks[k].pkgName) == IndexOfPkg(s.tasks, s.tasks[k].pkgName)
      && IndexOfUid(s1.tasks, s.tasks[k].uid) == IndexOfUid(s.tasks, s.tasks[k].uid)
  {
    hide IndexOfPkg, IndexOfUid, Names, Changed;
    var tasks, tasks' := s.tasks, GrantOnTask(s, c, k, n, g).tasks;
    assert forall i :: 0 <= i < |tasks| ==> tasks'[i].uid == tasks[i].uid && tasks'[i].pkgName == tasks[i].pkgName;
    var i, i' := IndexOfPkg(tasks, tasks[k].pkgName), IndexOfPkg(tasks', tasks[k].pkgName);
    var j, j' := IndexOfUid(tasks, tasks[k].uid), IndexOfUid(tasks', tasks[k].uid);
  }

  /** The state when call d has begun, with this effect on the task list. */
  function Joined(s: System, tasks: seq<Task>, d: nat, a: Activity): System {
    s.(tasks := tasks, calls := s.calls[d := a])
  }

  lemma StepBesides(config: Config, s: System, c: nat, tasks: seq<Task>, d: nat, a: Activity)
    requires c != d
    ensures DoReadFile(config, Joined(s, tasks, d, a), c) == Joined(DoReadFile(config, s, c), tasks, d, a)
    ensures DoWriteFile(Joined(s, tasks, d, a), c) == Joined(DoWriteFile(s, c), tasks, d, a)
  {
    hide Query, Changed, Written;
    var j := Joined(s, tasks, d, a);
    if c in s.calls {
      var b := s.calls[c];
      assert j.calls[c] == b && j.calls - {c} == (s.calls - {c})[d := a];
      if b.SyncPending? && Query(config, s.files, b.pkg).Success? {
        var read := SyncRead(b.pkg, b.permName, b.change, Changed(Query(config, s.files, b.pkg).value, b.permName, b.change));
        assert j.calls[c := read] == s.calls[c := read][d := a];
      }
    }
  }

  /** What a begin does depends on the task list, the mutex and the call itself only. */
  lemma BeginBesides(config: Config, s: System, s1: System, begin: Action) returns (tasks: seq<Task>, a: Activity)
    requires begin.BeginGrant? || begin.BeginRuntime? || begin.BeginFlags?
    requires s1.tasks == s.tasks && s1.holder == s.holder && (begin.c in s1.calls <==> begin.c in s.calls)
    ensures (Next(config, s, begin) == s && Next(config, s1, begin) == s1)
      || (Next(config, s, begin) == Joined(s, tasks, begin.c, a) && Next(config, s1, begin) == Joined(s1, tasks, begin.c, a))
  {
    hide Modified, Names, IsValidFlags, IndexOfPkg, IndexOfUid;
    var s' := Next(config, s, begin);
    tasks := s'.tasks;
    a := if begin.c in s'.calls then s'.calls[begin.c] else SyncPending("", "", SetGranted(GRANTED));
  }

  /** A grant or flags update that begins after the read or the write of another call could as well begin
      before it. */
  lemma BeginCommutes(config: Config, s: System, c: nat, begin: Action, step: Action)
    requires begin.BeginGrant? || begin.BeginRuntime? || begin.BeginFlags?
    requires begin.c != c && (step == ReadFile(c) || step == WriteFile(c))
    ensures Next(config, Next(config, s, step), begin) == Next(config, Next(config, s, begin), step)
  {
    hide Joined, DoBeginGrant, DoBeginRuntime, DoBeginFlags, DoReadFile, DoWriteFile;
    var s1 := Next(config, s, step);
    StepKeepsRest(config, s, c);
    var tasks, a := BeginBesides(config, s, s1, begin);
    StepBesides(config, s, c, tasks, begin.c, a);
  }

  lemma StepKeepsRest(config: Config, s: System, c: nat)
    ensures forall s1 :: s1 == DoReadFile(config, s, c) || s1 == DoWriteFile(s, c) ==>
      s1.tasks == s.tasks && s1.holder == s.holder && forall d :: d != c ==> (d in s1.calls <==> d in s.calls)
  {
    hide Query, Changed, Written;
  }

  /** The task is not unloaded during the run. */
  predicate StaysLoaded(actions: seq<Action>, uid: int) {
    forall i :: 0 <= i < |actions| ==> actions[i] != DoUnLoad(uid)
  }

  /** No step of the race, and none aside from it, changes a task of the package. */
  lemma StepKeepsTask(config: Config, s: System, action: Action, c: nat, d: nat, pkg: string, t: Task)
    requires EventOf(action, c, d).Some? || Aside(s, action, c, d, pkg)
    requires t in s.tasks && t.pkgName == pkg && action != DoUnLoad(t.uid)
    ensures t in Next(config, s, action).tasks
  {
    hide GrantOnTask, DoReadFile, DoWriteFile, DoFailFile, DoBeginFlags, DoBeginLoad, DoAbortLoad, DoBeginSave;
    var s' := Next(config, s, action);
    OnlyGrantsAndLoadsChangeTasks(config, s, action);
    var k :| 0 <= k < |s.tasks| && s.tasks[k] == t;
    match action {
      case BeginGrant(e, identifier, permName, g) =>
        GrantKeepsOthers(s, e, IndexOfPkg(s.tasks, identifier), permName, g, k);
      case BeginRuntime(e, uid, permName, g) =>
        GrantKeepsOthers(s, e, IndexOfUid(s.tasks, uid), permName, g, k);
      case FinishLoad(_) => assert s'.tasks == s.tasks || s'.tasks[k + 1] == t;
      case DoUnLoad(uid) =>
        var i := IndexOfUid(s.tasks, uid);
        assert s'.tasks == s.tasks || s'.tasks[if k < i then k else k - 1] == t;
      case _ =>
    }
  }

  lemma GrantKeepsOthers(s: System, e: nat, i: nat, permName: string, g: Status, k: nat)
    requires k < |s.tasks| && i != k
    ensures i < |s.tasks| ==> s.tasks[k] in GrantOnTask(s, e, i, permName, g).tasks
  {
    hide Changed, Names;
    if i < |s.tasks| {
      assert GrantOnTask(s, e, i, permName, g).tasks[k] == s.tasks[k];
    }
  }

  lemma StepKeepsUnfailed(config: Config, s: System, action: Action, c: nat, d: nat, pkg: string, v: Rivals, r: Race)
    requires Shows(config, s, c, d, pkg, v, r) && (EventOf(action, c, d).Some? || Aside(s, action, c, d, pkg))
    requires pkg !in s.failed
    ensures pkg !in Next(config, s, action).failed
  {
    hide Query, Changed, Written, TextsFit, SaveList, IsValidFlags, Names, Modified, IndexOfPkg, IndexOfUid;
  }

  lemma {:induction false} RaceKeepsTask(config: Config, s: System, actions: seq<Action>, c: nat, d: nat, pkg: string, v: Rivals, r: Race, t: Task)
    requires Shows(config, s, c, d, pkg, v, r) && c != d && RaceRun(config, s, actions, c, d, pkg)
    requires t in s.tasks && t.pkgName == pkg && StaysLoaded(actions, t.uid) && pkg !in s.failed
    ensures var s' := Execute(config, s, actions); t in s'.tasks && pkg !in s'.failed
    decreases |actions|
  {
    hide Shows, React, Aside, Next, EventOf;
    if actions == [] {
    } else {
      StepKeepsTask(config, s, actions[0], c, d, pkg, t);
      StepKeepsUnfailed(config, s, actions[0], c, d, pkg, v, r);
      var r1 := r;
      if EventOf(actions[0], c, d).Some? {
        EventIsShown(config, s, actions[0], c, d, pkg, v, r);
        r1 := React(r, EventOf(actions[0], c, d).value, v);
      } else {
        AsideIsShown(config, s, actions[0], c, d, pkg, v, r);
      }
      RaceKeepsTask(config, Next(config, s, actions[0]), actions[1..], c, d, pkg, v, r1, t);
    }
  }

  /** The task with both changes, which it has before either is on file. */
  function WithBoth(t: Task, v: Rivals): Task {
    t.(perms := Changed(Changed(t.perms, v.n1, v.c1), v.n2, v.c2))
  }

  lemma BothBegunTask(config: Config, s: System, c: nat, d: nat, k: nat, n1: string, g1: Status, n2: string, g2: Status)
    requires c !in s.calls && d !in s.calls && c != d
    requires k < |s.tasks| && NoOtherWriter(s, c, d, s.tasks[k].pkgName)
    requires Matches(config, s.files, s.tasks[k]) && Names(s.tasks[k], n1) && Names(s.tasks[k], n2)
    ensures
      var begun, v := BothBegun(s, c, d, k, n1, g1, n2, g2), Rivals(n1, SetGranted(g1), n2, SetGranted(g2));
      && Contested(config, begun, c, d, s.tasks[k].pkgName, v)
      && begun.files == s.files && begun.failed == s.failed
      && begun.tasks == s.tasks[k := WithBoth(s.tasks[k], v)]
  {
    hide Query, Changed, IndexOfName;
    ChangeKeepsNames(s.tasks[k].perms, n1, SetGranted(g1));
  }

  lemma GrantedAfterGrant(ps: seq<PermissionSaved>, n: string, g: Status, m: string)
    ensures GrantedOf(Changed(ps, n, SetGranted(g)), m) ==
      if m == n && IndexOfName(ps, n) < |ps| then g else GrantedOf(ps, m)
  {
    hide IndexOfName;
    ChangeKeepsNames(ps, n, SetGranted(g));
  }

  /** A list is missing one of the two grants: it does not match the task that has both. */
  lemma LastWritersDiffers(ps: seq<PermissionSaved>, ts: seq<PermissionSaved>, n1: string, g1: Status, n2: string, g2: Status)
    requires SameGrants(ps, ts) && n1 != n2
    requires GrantedOf(ps, n1) != g1 && IndexOfName(ps, n1) < |ps| && IndexOfName(ps, n2) < |ps|
    ensures var both := Changed(Changed(ts, n1, SetGranted(g1)), n2, SetGranted(g2));
      && GrantedOf(both, n1) == g1 && GrantedOf(both, n2) == g2
      && SameGrants(Changed(Changed(ps, n1, SetGranted(g1)), n2, SetGranted(g2)), both)
      && !SameGrants(Changed(ps, n2, SetGranted(g2)), both)
  {
    hide SameGrants, GrantedOf, Changed, IndexOfName;
    var t1, p1 := Changed(ts, n1, SetGranted(g1)), Changed(ps, n1, SetGranted(g1));
    GrantKeepsSameGrants(ps, ts, n1, g1);
    GrantKeepsSameGrants(p1, t1, n2, g2);
    ChangeKeepsNames(ts, n1, SetGranted(g1));
    GrantedAfterGrant(ts, n1, g1, n1);
    GrantedAfterGrant(t1, n2, g2, n1);
    GrantedAfterGrant(t1, n2, g2, n2);
    GrantedAfterGrant(ps, n2, g2, n1);
    SameGrantsAnswer(ps, ts, n1);
    SameGrantsAnswer(ps, ts, n2);
    var last, both := Changed(ps, n2, SetGranted(g2)), Changed(t1, n2, SetGranted(g2));
    if SameGrants(last, both) {
      SameGrantsAnswer(last, both, n1);
    }
  }

  lemma MatchingIsStorable(config: Config, files: Files, t: Task)
    requires Matches(config, files, t) && AllStorable(t.perms)
    ensures AllStorable(Query(config, files, t.pkgName).value)
  {
    hide Query;
    QueriedTextsFit(config, files, t.pkgName);
  }

  lemma GrantIsNeeded(ps: seq<PermissionSaved>, n: string, g: Status)
    requires IndexOfName(ps, n) < |ps| && GrantedOf(ps, n) != g
    ensures Changed(ps, n, SetGranted(g)) != ps
  {
    GrantedAfterGrant(ps, n, g, n);
  }

  /** A loaded task keeps both grants whatever the order, its file only when one call's write comes before
      the other one's read. Otherwise cache and file disagree although no access has failed and no call is
      left that could write the file. */
  lemma LoadedRaceMatchesIff(config: Config, s: System, actions: seq<Action>, c: nat, d: nat, k: nat,
                             n1: string, g1: Status, n2: string, g2: Status, rc: nat, wc: nat, rd: nat, wd: nat)
    requires c !in s.calls && d !in s.calls && c != d && n1 != n2
    requires k < |s.tasks| && NoOtherWriter(s, c, d, s.tasks[k].pkgName) && s.tasks[k].pkgName !in s.failed
    requires Matches(config, s.files, s.tasks[k]) && AllStorable(s.tasks[k].perms)
    requires Names(s.tasks[k], n1) && GrantedOf(s.tasks[k].perms, n1) != g1
    requires Names(s.tasks[k], n2) && GrantedOf(s.tasks[k].perms, n2) != g2
    requires RaceRun(config, BothBegun(s, c, d, k, n1, g1, n2, g2), actions, c, d, s.tasks[k].pkgName)
    requires Order(Events(actions, c, d), rc, wc, rd, wd) && StaysLoaded(actions, s.tasks[k].uid)
    ensures
      var s' := Execute(config, BothBegun(s, c, d, k, n1, g1, n2, g2), actions);
      var t := WithBoth(s.tasks[k], Rivals(n1, SetGranted(g1), n2, SetGranted(g2)));
      && t in s'.tasks && GrantedOf(t.perms, n1) == g1 && GrantedOf(t.perms, n2) == g2
      && t.pkgName !in s'.failed && (forall e :: e in s'.calls && s'.calls[e].pkg == t.pkgName ==> s'.calls[e].LoadHeld?)
      && (Matches(config, s'.files, t) <==> Serial(rc, wc, rd, wd))
  {
    hide Query, Execute, RaceRun, Order, Events, Changed, BothBegun, IndexOfName, NormalList, GrantedOf, SameGrants, FileAfter, StaysLoaded, Play;
    var t, pkg, v := s.tasks[k], s.tasks[k].pkgName, Rivals(n1, SetGranted(g1), n2, SetGranted(g2));
    var begun := BothBegun(s, c, d, k, n1, g1, n2, g2);
    var ps := Query(config, s.files, pkg).value;
    BothBegunTask(config, s, c, d, k, n1, g1, n2, g2);
    QueriedTextsFit(config, s.files, pkg);
    assert begun.tasks[k] == WithBoth(t, v);
    RaceKeepsTask(config, begun, actions, c, d, pkg, v, Race(ps, Pending, Pending), WithBoth(t, v));
    RunShowsPlay(config, begun, actions, c, d, pkg, v, Race(ps, Pending, Pending));
    SameGrantsAnswer(ps, t.perms, n1);
    SameGrantsAnswer(ps, t.perms, n2);
    GrantIsNeeded(ps, n1, g1);
    GrantIsNeeded(ps, n2, g2);
    MatchingIsStorable(config, s.files, t);
    StorableIsNormal(ps);
    BothNeededSurviveIff(config, begun, actions, c, d, pkg, v, rc, wc, rd, wd);
    ContestEnds(config, begun, actions, c, d, pkg, v, rc, wc, rd, wd);
    LastWritersDiffers(ps, t.perms, n1, g1, n2, g2);
    LastWritersDiffers(ps, t.perms, n2, g2, n1, g1);
    ChangesCommute(t.perms, n1, SetGranted(g1), n2, SetGranted(g2));
  }
}
