/** Access policies of IPC services: what a policy means, and its translation into the array that
    GetCommunicationStrategy hands out. */
module IpcPolicies {
  import opened Common

  const UID_SIZE := 8
  const POLICY_SIZE := 8

  // enum PolicyType; a slot left out of a table has type 0
  const RANGE := 1
  const FIXED := 2
  const BUNDLENAME := 3

  // IpcAuthErrorCode
  const AUTH_SUCCESS := 0
  const ACCESS_DENIED := -1
  const NO_POLICY_SET := -2
  const POLICY_NOT_FOUND := -3
  const INVALID_UID := 100
  const INVALID_BUNDLENAME := 101
  const AUTH_MALLOC_FAIL := 103

  type Uids = s: seq<int32> | |s| == UID_SIZE witness [0, 0, 0, 0, 0, 0, 0, 0]

  datatype IpcPolicy = IpcPolicy(kind: int, fixedUid: Uids, uidMin: int32, uidMax: int32, bundleName: Option<string>)

  datatype PolicyTrans = PolicyTrans(kind: int, fixedUid: Uids, uidMin: int32, uidMax: int32)

  const UNSET := IpcPolicy(0, NO_UIDS, 0, 0, None)
  const NO_UIDS: Uids := [0, 0, 0, 0, 0, 0, 0, 0]
  const ZEROED := PolicyTrans(0, NO_UIDS, 0, 0)

  type Slots = s: seq<IpcPolicy> | |s| == POLICY_SIZE
    witness [UNSET, UNSET, UNSET, UNSET, UNSET, UNSET, UNSET, UNSET]

  datatype FeaturePolicy = FeaturePolicy(feature: Option<string>, policies: Slots)

  datatype PolicySetting = PolicySetting(service: string, features: seq<FeaturePolicy>)

  /** Whether the build has the application framework (OHOS_APPFWK_ENABLE), and the uid the bundle
      manager reports for a bundle. */
  datatype Platform = Platform(appFramework: bool, bundleUid: string -> Option<uint32>)

  /** GetUidByBundleName. */
  function UidOfBundle(platform: Platform, bundleName: Option<string>): Option<uint32> {
    if bundleName.None? then None else platform.bundleUid(bundleName.value)
  }

  /** IsPolicyValid. */
  predicate IsPolicyValid(platform: Platform, kind: int) {
    kind == RANGE || kind == FIXED || (platform.appFramework && kind == BUNDLENAME)
  }

  predicate FixedHas(fixedUid: Uids, uid: uint32) {
    exists m :: 0 <= m < UID_SIZE && ToUnsigned(fixedUid[m]) == uid
  }

  /** The uid passes the policy: within the range, compared as unsigned, or one of the eight fixed
      slots, or the bundle's uid. */
  predicate PolicyAccepts(platform: Platform, p: IpcPolicy, uid: uint32) {
    if p.kind == RANGE then ToUnsigned(p.uidMin) <= uid <= ToUnsigned(p.uidMax)
    else if p.kind == FIXED then FixedHas(p.fixedUid, uid)
    else if p.kind == BUNDLENAME && platform.appFramework then UidOfBundle(platform, p.bundleName) == Some(uid)
    else false
  }

  predicate FeatureAccepts(platform: Platform, f: FeaturePolicy, uid: uint32) {
    exists k :: 0 <= k < POLICY_SIZE && PolicyAccepts(platform, f.policies[k], uid)
  }

  /** SetPolicy on a zeroed entry. */
  function Translated(platform: Platform, p: IpcPolicy): PolicyTrans {
    if p.kind == RANGE then ZEROED.(kind := RANGE, uidMax := p.uidMax, uidMin := p.uidMin)
    else if p.kind == FIXED then ZEROED.(kind := FIXED, fixedUid := p.fixedUid)
    else if p.kind == BUNDLENAME && platform.appFramework then
      var uid := UidOfBundle(platform, p.bundleName);
      if uid.None? then ZEROED.(kind := BUNDLENAME)
      else ZEROED.(kind := BUNDLENAME, fixedUid := NO_UIDS[0 := ToInt32(uid.value)])
    else ZEROED
  }

  /** The valid policies among the first n slots, translated, in order. */
  function TranslatedSlots(platform: Platform, slots: Slots, n: nat): (r: seq<PolicyTrans>)
    requires n <= POLICY_SIZE
    ensures |r| <= n
  {
    if n == 0 then []
    else
      TranslatedSlots(platform, slots, n - 1)
      + if IsPolicyValid(platform, slots[n - 1].kind) then [Translated(platform, slots[n - 1])] else []
  }

  /** How the receiver of the array reads an entry: a range, a fixed set, or the uid in slot 0. */
  predicate TransAccepts(t: PolicyTrans, uid: uint32) {
    if t.kind == RANGE then ToUnsigned(t.uidMin) <= uid <= ToUnsigned(t.uidMax)
    else if t.kind == FIXED then FixedHas(t.fixedUid, uid)
    else if t.kind == BUNDLENAME then ToUnsigned(t.fixedUid[0]) == uid
    else false
  }

  predicate StrategyAccepts(ts: seq<PolicyTrans>, uid: uint32) {
    exists i :: 0 <= i < |ts| && TransAccepts(ts[i], uid)
  }

  /** The policy names a bundle that does not resolve; its translation then stands for uid 0. */
  predicate Unresolved(platform: Platform, p: IpcPolicy) {
    p.kind == BUNDLENAME && platform.appFramework && UidOfBundle(platform, p.bundleName).None?
  }

  predicate HasUnresolved(platform: Platform, f: FeaturePolicy) {
    exists k :: 0 <= k < POLICY_SIZE && Unresolved(platform, f.policies[k])
  }

  lemma UnsignedRoundTrip(u: uint32)
    ensures ToUnsigned(ToInt32(u)) == u
  {
  }

  /** One entry means what its policy means, except that an unresolved bundle reads as uid 0. */
  lemma TranslationOfOne(platform: Platform, p: IpcPolicy, uid: uint32)
    ensures TransAccepts(Translated(platform, p), uid)
      <==> PolicyAccepts(platform, p, uid) || (uid == 0 && Unresolved(platform, p))
  {
    hide ToInt32;
    var b := UidOfBundle(platform, p.bundleName);
    if b.Some? {
      UnsignedRoundTrip(b.value);
    }
  }

  lemma {:induction false} TranslationOfSlots(platform: Platform, slots: Slots, n: nat, uid: uint32)
    requires n <= POLICY_SIZE
    ensures StrategyAccepts(TranslatedSlots(platform, slots, n), uid)
      <==> exists k :: 0 <= k < n && (PolicyAccepts(platform, slots[k], uid) || (uid == 0 && Unresolved(platform, slots[k])))
  {
    hide PolicyAccepts, TransAccepts, Translated, Unresolved;
    if n == 0 {
    } else {
      TranslationOfSlots(platform, slots, n - 1, uid);
      var front, p := TranslatedSlots(platform, slots, n - 1), slots[n - 1];
      InvalidAcceptsNothing(platform, p, uid);
      TranslationOfOne(platform, p, uid);
      if IsPolicyValid(platform, p.kind) {
        AcceptsAppend(front, Translated(platform, p), uid);
      } else {
        assert TranslatedSlots(platform, slots, n) == front;
      }
    }
  }

  lemma InvalidAcceptsNothing(platform: Platform, p: IpcPolicy, uid: uint32)
    ensures !IsPolicyValid(platform, p.kind) ==> !PolicyAccepts(platform, p, uid) && !Unresolved(platform, p)
  {
  }

  lemma AcceptsAppend(ts: seq<PolicyTrans>, t: PolicyTrans, uid: uint32)
    ensures StrategyAccepts(ts + [t], uid) <==> StrategyAccepts(ts, uid) || TransAccepts(t, uid)
  {
    hide TransAccepts;
    if StrategyAccepts(ts, uid) {
      var i :| 0 <= i < |ts| && TransAccepts(ts[i], uid);
      assert (ts + [t])[i] == ts[i];
    }
    assert (ts + [t])[|ts|] == t;
  }

  /** Translation preserves meaning: the array accepts exactly the uids the policies accept, and uid 0
      besides when a policy's bundle does not resolve. */
  lemma TranslationPreservesMeaning(platform: Platform, f: FeaturePolicy, uid: uint32)
    ensures StrategyAccepts(TranslatedSlots(platform, f.policies, POLICY_SIZE), uid)
      <==> FeatureAccepts(platform, f, uid) || (uid == 0 && HasUnresolved(platform, f))
  {
    hide PolicyAccepts, Unresolved, TranslatedSlots;
    TranslationOfSlots(platform, f.policies, POLICY_SIZE, uid);
  }

  /** The exception is real: a lone policy for a bundle that is not installed admits nobody when it is
      evaluated, and uid 0 when it is translated. */
  lemma UnresolvedBundleAdmitsZero(bundle: string)
    ensures
      var platform := Platform(true, _ => None);
      var f := FeaturePolicy(None, [UNSET.(kind := BUNDLENAME, bundleName := Some(bundle)), UNSET, UNSET, UNSET, UNSET, UNSET, UNSET, UNSET]);
      StrategyAccepts(TranslatedSlots(platform, f.policies, POLICY_SIZE), 0) && forall uid :: !FeatureAccepts(platform, f, uid)
  {
    hide TranslatedSlots;
    var platform := Platform(true, _ => None);
    var f := FeaturePolicy(None, [UNSET.(kind := BUNDLENAME, bundleName := Some(bundle)), UNSET, UNSET, UNSET, UNSET, UNSET, UNSET, UNSET]);
    assert Unresolved(platform, f.policies[0]);
    TranslationPreservesMeaning(platform, f, 0);
  }

  /** The order of the slots does not matter, nor does it that some bundle lookups fail. */
  lemma SlotOrderDoesNotMatter(platform: Platform, f: FeaturePolicy, g: FeaturePolicy, uid: uint32)
    requires multiset(f.policies) == multiset(g.policies)
    ensures FeatureAccepts(platform, f, uid) <==> FeatureAccepts(platform, g, uid)
  {
    hide PolicyAccepts;
    AcceptedIsIn(platform, f, g, uid);
    AcceptedIsIn(platform, g, f, uid);
  }

  lemma AcceptedIsIn(platform: Platform, f: FeaturePolicy, g: FeaturePolicy, uid: uint32)
    requires multiset(f.policies) == multiset(g.policies)
    ensures FeatureAccepts(platform, f, uid) ==> FeatureAccepts(platform, g, uid)
  {
    hide PolicyAccepts;
    if FeatureAccepts(platform, f, uid) {
      var k :| 0 <= k < POLICY_SIZE && PolicyAccepts(platform, f.policies[k], uid);
      assert f.policies[k] in multiset(g.policies);
    }
  }

  // ---- policies in literal terms

  /** The value of an int read as an unsigned one. */
  ghost function Unsigned(x: int32): int { if x < 0 then x + 0x1_0000_0000 else x }

  /** Which uids a policy admits: a range with both bounds, any of eight fixed slots, or the uid of a bundle
      that resolves, in builds with the application framework. */
  ghost predicate Admits(platform: Platform, p: IpcPolicy, uid: uint32) {
    || (p.kind == 1 && Unsigned(p.uidMin) <= uid <= Unsigned(p.uidMax))
    || (p.kind == 2 && exists m :: 0 <= m < 8 && Unsigned(p.fixedUid[m]) == uid)
    || (p.kind == 3 && platform.appFramework && p.bundleName.Some? && platform.bundleUid(p.bundleName.value) == Some(uid))
  }

  /** The bundle of the policy does not resolve. */
  ghost predicate BundleMissing(platform: Platform, p: IpcPolicy) {
    p.kind == 3 && platform.appFramework && (p.bundleName.None? || platform.bundleUid(p.bundleName.value).None?)
  }

  lemma FixedMeaning(fixedUid: Uids, uid: uint32)
    ensures FixedHas(fixedUid, uid) <==> exists m :: 0 <= m < 8 && Unsigned(fixedUid[m]) == uid
    ensures (exists m :: 0 <= m < 8 && Unsigned(fixedUid[m]) == uid)
      <==> exists m :: 0 <= m < 8 && (fixedUid[m] == uid || fixedUid[m] as int + 0x1_0000_0000 == uid)
  {
    forall m | 0 <= m < 8
      ensures Unsigned(fixedUid[m]) == uid <==> fixedUid[m] == uid || fixedUid[m] as int + 0x1_0000_0000 == uid
      ensures Unsigned(fixedUid[m]) == ToUnsigned(fixedUid[m])
    {
    }
  }

  lemma PolicyMeaning(platform: Platform, p: IpcPolicy, uid: uint32)
    ensures PolicyAccepts(platform, p, uid) <==> Admits(platform, p, uid)
    ensures Unresolved(platform, p) <==> BundleMissing(platform, p)
  {
    FixedMeaning(p.fixedUid, uid);
  }

  /** A feature's policy set admits what any of its eight slots admits. */
  lemma FeatureMeaning(platform: Platform, f: FeaturePolicy, uid: uint32)
    ensures FeatureAccepts(platform, f, uid) <==> exists k :: 0 <= k < 8 && Admits(platform, f.policies[k], uid)
    ensures HasUnresolved(platform, f) <==> exists k :: 0 <= k < 8 && BundleMissing(platform, f.policies[k])
  {
    hide PolicyAccepts, Unresolved, Admits, BundleMissing;
    forall k | 0 <= k < 8
      ensures PolicyAccepts(platform, f.policies[k], uid) <==> Admits(platform, f.policies[k], uid)
      ensures Unresolved(platform, f.policies[k]) <==> BundleMissing(platform, f.policies[k])
    {
      PolicyMeaning(platform, f.policies[k], uid);
    }
  }

  /** Each of the eight slots on its own admits its uid, the first and the last included. */
  lemma EachSlotAdmits(platform: Platform, p: IpcPolicy, m: nat)
    requires p.kind == 2 && m < 8
    ensures PolicyAccepts(platform, p, ToUnsigned(p.fixedUid[m]))
  {
    PolicyMeaning(platform, p, ToUnsigned(p.fixedUid[m]));
    assert Unsigned(p.fixedUid[m]) == ToUnsigned(p.fixedUid[m]);
  }

  /** What a policy is translated to: only the fields its kind uses, everything else zero. */
  lemma TranslatedMeaning(platform: Platform, p: IpcPolicy)
    ensures var t, zeros := Translated(platform, p), [0, 0, 0, 0, 0, 0, 0, 0];
      && (p.kind == 1 ==> t == PolicyTrans(1, zeros, p.uidMin, p.uidMax))
      && (p.kind == 2 ==> t == PolicyTrans(2, p.fixedUid, 0, 0))
      && (BundleMissing(platform, p) ==> t == PolicyTrans(3, zeros, 0, 0))
      && (p.kind == 3 && platform.appFramework && !BundleMissing(platform, p) ==>
            && t == PolicyTrans(3, zeros[0 := t.fixedUid[0]], 0, 0)
            && Unsigned(t.fixedUid[0]) == platform.bundleUid(p.bundleName.value).value)
  {
  }

  /** How an entry is read: its range, any of its eight slots, or slot 0 alone. */
  lemma TransMeaning(t: PolicyTrans, uid: uint32)
    ensures TransAccepts(t, uid) <==>
      || (t.kind == 1 && Unsigned(t.uidMin) <= uid <= Unsigned(t.uidMax))
      || (t.kind == 2 && exists m :: 0 <= m < 8 && Unsigned(t.fixedUid[m]) == uid)
      || (t.kind == 3 && Unsigned(t.fixedUid[0]) == uid)
  {
    FixedMeaning(t.fixedUid, uid);
  }

  /** Kinds 1 and 2 are set up, kind 3 only with the application framework; nothing else is. */
  ghost predicate IsSetUp(platform: Platform, kind: int) {
    kind == 1 || kind == 2 || (kind == 3 && platform.appFramework)
  }

  /** The array has one entry per slot that is set up, in slot order. */
  lemma {:induction false} TranslatedSlotsMeaning(platform: Platform, slots: Slots, n: nat) returns (at: seq<nat>)
    requires n <= 8
    ensures |at| == |TranslatedSlots(platform, slots, n)|
    ensures forall k :: 0 <= k < |at| ==>
      at[k] < n && IsSetUp(platform, slots[at[k]].kind) && TranslatedSlots(platform, slots, n)[k] == Translated(platform, slots[at[k]])
    ensures forall k, l :: 0 <= k < l < |at| ==> at[k] < at[l]
    ensures forall i :: 0 <= i < n && IsSetUp(platform, slots[i].kind) ==> i in at
  {
    hide Translated;
    if n == 0 {
      at := [];
    } else {
      var front := TranslatedSlotsMeaning(platform, slots, n - 1);
      if IsSetUp(platform, slots[n - 1].kind) {
        at := front + [n - 1];
        assert at[|front|] == n - 1;
        assert forall i :: i in front ==> i in at;
      } else {
        at := front;
        assert TranslatedSlots(platform, slots, n) == TranslatedSlots(platform, slots, n - 1);
      }
    }
  }
}
