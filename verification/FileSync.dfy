/** Properties of the file update behind every grant, revoke and flags change. */
module FileSync {
  import opened Common
  import opened PmsTypes
  import opened PermissionCodec
  import opened PmsModel

  /** The package's file, if it can be read, survives another write. */
  ghost predicate StorableAt(config: Config, files: Files, identifier: string) {
    Query(config, files, identifier).Success? ==> AllStorable(Query(config, files, identifier).value)
  }

  /** The two stores agree on every file but that one. */
  ghost predicate SameElsewhere(files: Files, files': Files, identifier: string) {
    forall id :: id != identifier ==> (id in files' <==> id in files) && (id in files' ==> files'[id] == files[id])
  }

  lemma SameFileSameQuery(config: Config, files: Files, files': Files, identifier: string, pkg: string)
    requires SameElsewhere(files, files', identifier) && pkg != identifier
    ensures Query(config, files', pkg) == Query(config, files, pkg)
  {
    hide Decode;
  }

  /** Any list whose texts fit reads back with its granted values reduced to 0 or 1. */
  lemma ReadAfterAnyWrite(config: Config, files: Files, identifier: string, ps: seq<PermissionSaved>)
    requires Query(config, files, identifier).Success? && TextsFit(ps)
    ensures Query(config, Written(files, identifier, ps), identifier) == Success(NormalList(ps))
  {
    hide Decode, Encode;
    ReadBack(ps);
  }

  lemma QueriedTextsFit(config: Config, files: Files, identifier: string)
    requires Query(config, files, identifier).Success?
    ensures TextsFit(Query(config, files, identifier).value)
  {
    hide Decode;
    DecodedFits(files[identifier].root);
  }

  lemma ReadAfterWrite(config: Config, files: Files, identifier: string, ps: seq<PermissionSaved>)
    requires Query(config, files, identifier).Success? && AllStorable(ps)
    ensures Query(config, Written(files, identifier, ps), identifier) == Success(ps)
  {
    hide Decode, Encode;
    RoundTrip(ps);
  }

  /** Whatever list is written, the file reads as a storable one, or not at all. */
  lemma WrittenIsStorable(config: Config, files: Files, identifier: string, ps: seq<PermissionSaved>)
    ensures StorableAt(config, Written(files, identifier, ps), identifier)
  {
    hide Decode, Encode;
    if Decode(Encode(ps)).Success? {
      ReadableTextsFit(ps);
      ReadBack(ps);
    }
  }

  lemma ReadableTextsFit(ps: seq<PermissionSaved>)
    requires Decode(Encode(ps)).Success?
    ensures TextsFit(ps)
  {
    var items := EncodeEntries(ps);
    assert GetObjectItem(Encode(ps), FIELD_PERMISSION) == Some(JArray(items));
    DecodeUpToMeaning(items, |items|);
    forall i | 0 <= i < |ps| ensures |ps[i].name| < PERM_NAME_LEN && |ps[i].desc| < PERM_DESC_LEN {
      assert DecodeEntry(items[i]).Success?;
      ReadBackEntry(ps[i]);
    }
  }

  /** What a file with list ps reads as after a sync: a write reduces every granted value to 0 or 1. */
  function AfterSync(ps: seq<PermissionSaved>, permName: string, c: Change): seq<PermissionSaved> {
    if Changed(ps, permName, c) == ps then ps else NormalList(Changed(ps, permName, c))
  }

  /** ... which holds for every readable file, and no other file is touched. */
  lemma SyncReadsAs(config: Config, files: Files, identifier: string, permName: string, c: Change)
    requires Query(config, files, identifier).Success?
    ensures
      var after := Synced(config, files, identifier, permName, c);
      && Query(config, after, identifier) == Success(AfterSync(Query(config, files, identifier).value, permName, c))
      && SameElsewhere(files, after, identifier)
  {
    hide Query, Encode;
    QueriedTextsFit(config, files, identifier);
    ReadAfterAnyWrite(config, files, identifier, Changed(Query(config, files, identifier).value, permName, c));
  }

  lemma ChangeKeepsStorable(ps: seq<PermissionSaved>, permName: string, c: Change)
    requires AllStorable(ps)
    ensures AllStorable(Changed(ps, permName, c))
  {
  }

  lemma StorableIsNormal(ps: seq<PermissionSaved>)
    ensures AllStorable(ps) ==> NormalList(ps) == ps
  {
  }

  /** Skipping the write when the field already has the value makes no difference: a storable file reads
      as the changed list either way, and no other file is touched. */
  lemma SyncReadsAsChanged(config: Config, files: Files, identifier: string, permName: string, c: Change)
    requires Query(config, files, identifier).Success? && AllStorable(Query(config, files, identifier).value)
    ensures
      var ps := Changed(Query(config, files, identifier).value, permName, c);
      var after := Synced(config, files, identifier, permName, c);
      && Query(config, after, identifier) == Success(ps)
      && Query(config, Written(files, identifier, ps), identifier) == Success(ps)
      && SameElsewhere(files, after, identifier)
  {
    hide Query, Synced, Encode, Changed;
    var ps := Query(config, files, identifier).value;
    var qs := Changed(ps, permName, c);
    SyncReadsAs(config, files, identifier, permName, c);
    ChangeKeepsStorable(ps, permName, c);
    StorableIsNormal(qs);
    ReadAfterWrite(config, files, identifier, qs);
  }

  /** Reducing granted values and making a change can be done in either order. */
  lemma NormalOfChanged(ps: seq<PermissionSaved>, permName: string, c: Change)
    ensures NormalList(Changed(ps, permName, c)) == Changed(NormalList(ps), permName, c)
  {
    SameNamesSameIndex(ps, NormalList(ps), permName);
  }

  lemma NormalTwice(ps: seq<PermissionSaved>)
    ensures NormalList(NormalList(ps)) == NormalList(ps)
  {
  }

  /** The two changes overwrite different fields or names. */
  ghost predicate Independent(n1: string, c1: Change, n2: string, c2: Change) {
    n1 != n2 || c1.SetGranted? != c2.SetGranted?
  }

  /** Two changes commute on a list unless both overwrite the same field of the same name. */
  lemma ChangesCommute(ps: seq<PermissionSaved>, n1: string, c1: Change, n2: string, c2: Change)
    requires Independent(n1, c1, n2, c2)
    ensures Changed(Changed(ps, n1, c1), n2, c2) == Changed(Changed(ps, n2, c2), n1, c1)
  {
    ChangeKeepsNames(ps, n1, c1);
    ChangeKeepsNames(ps, n2, c2);
  }

  lemma LastChangeWins(ps: seq<PermissionSaved>, n: string, c1: Change, c2: Change)
    requires c1.SetGranted? == c2.SetGranted?
    ensures Changed(Changed(ps, n, c1), n, c2) == Changed(ps, n, c2)
  {
    ChangeKeepsNames(ps, n, c1);
  }

  /** A change moves no name: every lookup finds the same position as before. */
  lemma ChangeKeepsNames(ps: seq<PermissionSaved>, permName: string, c: Change)
    ensures SameShape(ps, Changed(ps, permName, c))
    ensures forall n :: IndexOfName(Changed(ps, permName, c), n) == IndexOfName(ps, n)
  {
    var qs := Changed(ps, permName, c);
    forall n ensures IndexOfName(qs, n) == IndexOfName(ps, n) {
      SameNamesSameIndex(ps, qs, n);
    }
  }

  lemma SameNamesSameIndex(a: seq<PermissionSaved>, b: seq<PermissionSaved>, n: string)
    requires |a| == |b| && forall i :: 0 <= i < |a| ==> a[i].name == b[i].name
    ensures IndexOfName(a, n) == IndexOfName(b, n)
  {
    var i, j := IndexOfName(a, n), IndexOfName(b, n);
  }

  lemma NormalOfAfterSync(ps: seq<PermissionSaved>, permName: string, c: Change)
    ensures NormalList(AfterSync(ps, permName, c)) == Changed(NormalList(ps), permName, c)
  {
    hide Changed, NormalList;
    NormalOfChanged(ps, permName, c);
    NormalTwice(Changed(ps, permName, c));
  }

  /** Two syncs in a row, when the first one finds nothing to write. */
  lemma AfterSyncsCleanFirst(ps: seq<PermissionSaved>, n1: string, c1: Change, n2: string, c2: Change)
    requires Independent(n1, c1, n2, c2) && Changed(ps, n1, c1) == ps
    ensures AfterSync(AfterSync(ps, n1, c1), n2, c2) == AfterSync(AfterSync(ps, n2, c2), n1, c1)
  {
    hide Changed, NormalList;
    var qs := Changed(ps, n2, c2);
    ChangesCommute(ps, n1, c1, n2, c2);
    NormalOfChanged(qs, n1, c1);
  }

  lemma AfterSyncsCommute(ps: seq<PermissionSaved>, n1: string, c1: Change, n2: string, c2: Change)
    requires Independent(n1, c1, n2, c2)
    ensures AfterSync(AfterSync(ps, n1, c1), n2, c2) == AfterSync(AfterSync(ps, n2, c2), n1, c1)
  {
    hide Changed, NormalList;
    if Changed(ps, n1, c1) == ps {
      AfterSyncsCleanFirst(ps, n1, c1, n2, c2);
    } else if Changed(ps, n2, c2) == ps {
      AfterSyncsCleanFirst(ps, n2, c2, n1, c1);
    } else {
      ChangesCommute(ps, n1, c1, n2, c2);
      SyncOfNormal(Changed(ps, n1, c1), n2, c2);
      SyncOfNormal(Changed(ps, n2, c2), n1, c1);
    }
  }

  lemma SyncOfNormal(ps: seq<PermissionSaved>, permName: string, c: Change)
    ensures AfterSync(NormalList(ps), permName, c) == NormalList(Changed(ps, permName, c))
  {
    hide Changed, NormalList;
    NormalOfChanged(ps, permName, c);
    NormalTwice(Changed(ps, permName, c));
  }

  /** Completed syncs of one package commute on what the file reads as, for every readable file, unless
      both set the same field of the same permission. Then the later one wins: the file reads, up to the
      reduction of granted values a write makes, as if only it had happened. */
  lemma SyncsCommute(config: Config, files: Files, identifier: string, n1: string, c1: Change, n2: string, c2: Change)
    requires Query(config, files, identifier).Success?
    ensures
      var ps := Query(config, files, identifier).value;
      var oneTwo := Query(config, Synced(config, Synced(config, files, identifier, n1, c1), identifier, n2, c2), identifier);
      var twoOne := Query(config, Synced(config, Synced(config, files, identifier, n2, c2), identifier, n1, c1), identifier);
      var two := Query(config, Synced(config, files, identifier, n2, c2), identifier);
      && oneTwo.Success? && twoOne.Success? && two.Success?
      && (Independent(n1, c1, n2, c2) ==> oneTwo == twoOne)
      && (!Independent(n1, c1, n2, c2) ==>
            NormalList(oneTwo.value) == NormalList(two.value) && (AllStorable(ps) ==> oneTwo == two))
  {
    hide Query, Synced, AfterSync, NormalList, Changed;
    var ps := Query(config, files, identifier).value;
    SyncReadsAs(config, files, identifier, n1, c1);
    SyncReadsAs(config, files, identifier, n2, c2);
    SyncReadsAs(config, Synced(config, files, identifier, n1, c1), identifier, n2, c2);
    SyncReadsAs(config, Synced(config, files, identifier, n2, c2), identifier, n1, c1);
    if Independent(n1, c1, n2, c2) {
      AfterSyncsCommute(ps, n1, c1, n2, c2);
    } else {
      LastSyncWins(ps, n1, c1, c2);
    }
  }

  lemma LastSyncWins(ps: seq<PermissionSaved>, n: string, c1: Change, c2: Change)
    requires c1.SetGranted? == c2.SetGranted?
    ensures NormalList(AfterSync(AfterSync(ps, n, c1), n, c2)) == NormalList(AfterSync(ps, n, c2))
    ensures AllStorable(ps) ==> AfterSync(AfterSync(ps, n, c1), n, c2) == AfterSync(ps, n, c2)
  {
    hide AfterSync, Changed, NormalList;
    NormalOfAfterSync(ps, n, c1);
    NormalOfAfterSync(ps, n, c2);
    NormalOfAfterSync(AfterSync(ps, n, c1), n, c2);
    LastChangeWins(NormalList(ps), n, c1, c2);
    if AllStorable(ps) {
      StorableSync(ps, n, c1);
      StorableSync(ps, n, c2);
      StorableSync(AfterSync(ps, n, c1), n, c2);
      LastChangeWins(ps, n, c1, c2);
    }
  }

  lemma StorableSync(ps: seq<PermissionSaved>, permName: string, c: Change)
    requires AllStorable(ps)
    ensures AfterSync(ps, permName, c) == Changed(ps, permName, c) && AllStorable(AfterSync(ps, permName, c))
  {
    hide Changed, NormalList;
    ChangeKeepsStorable(ps, permName, c);
    StorableIsNormal(Changed(ps, permName, c));
  }
}
