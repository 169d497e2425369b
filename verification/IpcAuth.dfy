/** IPC authentication: GetCommunicationStrategy, which compiles a service's policy for the service
    manager, and IsCommunicationAllowed, which evaluates it. The policy tables, the bundle manager and
    the outcome of malloc are parameters. */
module IpcAuth {
  import opened Common
  import opened IpcPolicies

  /** The three tables, in search order; `product` is empty in builds without POLICY_PRODUCT. */
  datatype Tables = Tables(preset: seq<PolicySetting>, product: seq<PolicySetting>, registry: seq<PolicySetting>)

  const SYSTEM_SVC_UIDS: seq<uint32> := [1, 2, 0, 6, 7, 8, 9, 10, 11, 12, 19, 20, 3046]

  // ---- specification

  /** First table entry of that service, or |table|. */
  function ServiceIndex(table: seq<PolicySetting>, service: string): (i: nat)
    ensures i <= |table|
    ensures i < |table| ==> table[i].service == service
    ensures forall j :: 0 <= j < i ==> table[j].service != service
  {
    FirstIndex(table, (p: PolicySetting) => p.service == service)
  }

  function FeatureIndex(features: seq<FeaturePolicy>, feature: Option<string>): (i: nat)
    ensures i <= |features|
    ensures i < |features| ==> features[i].feature == feature
    ensures forall j :: 0 <= j < i ==> features[j].feature != feature
  {
    FirstIndex(features, (f: FeaturePolicy) => f.feature == feature)
  }

  predicate HasService(table: seq<PolicySetting>, service: string) {
    ServiceIndex(table, service) < |table|
  }

  /** The feature policy a table gives for a service and feature. */
  function FeatureIn(table: seq<PolicySetting>, service: string, feature: Option<string>): Option<FeaturePolicy> {
    var i := ServiceIndex(table, service);
    if i == |table| then None
    else
      var j := FeatureIndex(table[i].features, feature);
      if j == |table[i].features| then None else Some(table[i].features[j])
  }

  predicate TableAccepts(platform: Platform, table: seq<PolicySetting>, service: string, feature: Option<string>, uid: uint32) {
    var f := FeatureIn(table, service, feature);
    f.Some? && FeatureAccepts(platform, f.value, uid)
  }

  predicate Allowed(platform: Platform, tables: Tables, service: string, feature: Option<string>, uid: uint32) {
    || TableAccepts(platform, tables.preset, service, feature, uid)
    || TableAccepts(platform, tables.product, service, feature, uid)
    || TableAccepts(platform, tables.registry, service, feature, uid)
  }

  /** SetPolicies and SetPresetPolicies on one table. */
  function TableStrategy(platform: Platform, table: seq<PolicySetting>, service: string, feature: Option<string>, memory: bool)
    : Result<seq<PolicyTrans>>
  {
    var f := FeatureIn(table, service, feature);
    if !HasService(table, service) then Failure(POLICY_NOT_FOUND)
    else if f.None? || !memory then Failure(NO_POLICY_SET)
    else
      var ts := TranslatedSlots(platform, f.value.policies, POLICY_SIZE);
      if ts == [] then Failure(NO_POLICY_SET) else Success(ts)
  }

  /** The table that decides: the first one that has the service. */
  function DecidingTable(tables: Tables, service: string): seq<PolicySetting> {
    if HasService(tables.preset, service) then tables.preset
    else if HasService(tables.product, service) then tables.product
    else tables.registry
  }

  /** GetCommunicationStrategy. */
  function Strategy(platform: Platform, tables: Tables, service: string, feature: Option<string>, providerUid: uint32, memory: bool)
    : Result<seq<PolicyTrans>>
  {
    if providerUid !in SYSTEM_SVC_UIDS then Failure(INVALID_UID)
    else
      match TableStrategy(platform, DecidingTable(tables, service), service, feature, memory)
      case Success(ts) => Success(ts)
      case Failure(_) => Failure(NO_POLICY_SET)
  }

  // ---- the two paths agree

  /** No service is set up in two tables. */
  ghost predicate OneTablePerService(tables: Tables) {
    forall service ::
      && !(HasService(tables.preset, service) && HasService(tables.product, service))
      && !(HasService(tables.preset, service) && HasService(tables.registry, service))
      && !(HasService(tables.product, service) && HasService(tables.registry, service))
  }

  lemma OnlyTablesWithServiceAccept(platform: Platform, table: seq<PolicySetting>, service: string, feature: Option<string>, uid: uint32)
    ensures TableAccepts(platform, table, service, feature, uid) ==> HasService(table, service)
  {
  }

  /** The strategy handed out accepts only uids the check accepts, for all tables; the one exception is
      uid 0, when a policy names a bundle that does not resolve. */
  lemma StrategyIsSound(platform: Platform, tables: Tables, service: string, feature: Option<string>,
                        providerUid: uint32, memory: bool, uid: uint32)
    requires Strategy(platform, tables, service, feature, providerUid, memory).Success?
    ensures FeatureIn(DecidingTable(tables, service), service, feature).Some?
    ensures
      var f := FeatureIn(DecidingTable(tables, service), service, feature).value;
      StrategyAccepts(Strategy(platform, tables, service, feature, providerUid, memory).value, uid)
      ==> Allowed(platform, tables, service, feature, uid) || (uid == 0 && HasUnresolved(platform, f))
  {
    hide FeatureIn, HasService, FeatureAccepts, HasUnresolved, StrategyAccepts, TranslatedSlots;
    var f := FeatureIn(DecidingTable(tables, service), service, feature).value;
    TranslationPreservesMeaning(platform, f, uid);
  }

  /** When no service is in two tables, the strategy accepts exactly the uids the check accepts, up to
      the same exception. */
  lemma StrategyIsExact(platform: Platform, tables: Tables, service: string, feature: Option<string>,
                        providerUid: uint32, memory: bool, uid: uint32)
    requires OneTablePerService(tables)
    requires Strategy(platform, tables, service, feature, providerUid, memory).Success?
    ensures FeatureIn(DecidingTable(tables, service), service, feature).Some?
    ensures
      var f := FeatureIn(DecidingTable(tables, service), service, feature).value;
      StrategyAccepts(Strategy(platform, tables, service, feature, providerUid, memory).value, uid)
      <==> Allowed(platform, tables, service, feature, uid) || (uid == 0 && HasUnresolved(platform, f))
  {
    hide FeatureIn, HasService, FeatureAccepts, HasUnresolved, StrategyAccepts, TranslatedSlots;
    var f := FeatureIn(DecidingTable(tables, service), service, feature).value;
    TranslationPreservesMeaning(platform, f, uid);
    OnlyTablesWithServiceAccept(platform, tables.preset, service, feature, uid);
    OnlyTablesWithServiceAccept(platform, tables.product, service, feature, uid);
    OnlyTablesWithServiceAccept(platform, tables.registry, service, feature, uid);
  }

  /** ... and when a system service gets no strategy although memory is available, the check accepts nobody. */
  lemma NoStrategyNobodyAllowed(platform: Platform, tables: Tables, service: string, feature: Option<string>,
                                providerUid: uint32, uid: uint32)
    requires OneTablePerService(tables) && providerUid in SYSTEM_SVC_UIDS
    requires Strategy(platform, tables, service, feature, providerUid, true).Failure?
    ensures !Allowed(platform, tables, service, feature, uid)
  {
    hide HasService, FeatureAccepts, HasUnresolved, TranslatedSlots;
    var f := FeatureIn(DecidingTable(tables, service), service, feature);
    if f.Some? {
      TranslationPreservesMeaning(platform, f.value, uid);
    }
    OnlyTablesWithServiceAccept(platform, tables.preset, service, feature, uid);
    OnlyTablesWithServiceAccept(platform, tables.product, service, feature, uid);
    OnlyTablesWithServiceAccept(platform, tables.registry, service, feature, uid);
  }

  /** Exactly when the check accepts a uid that the strategy does not, whatever the tables: a later table
      gives another policy for the same service and feature that accepts it. */
  lemma StrategyMissesIff(platform: Platform, tables: Tables, service: string, feature: Option<string>,
                          providerUid: uint32, memory: bool, uid: uint32)
    requires Strategy(platform, tables, service, feature, providerUid, memory).Success?
    ensures FeatureIn(DecidingTable(tables, service), service, feature).Some?
    ensures
      Allowed(platform, tables, service, feature, uid)
      && !StrategyAccepts(Strategy(platform, tables, service, feature, providerUid, memory).value, uid)
      <==>
      && !TableAccepts(platform, DecidingTable(tables, service), service, feature, uid)
      && !(uid == 0 && HasUnresolved(platform, FeatureIn(DecidingTable(tables, service), service, feature).value))
      && ((HasService(tables.preset, service) && TableAccepts(platform, tables.product, service, feature, uid))
          || ((HasService(tables.preset, service) || HasService(tables.product, service))
              && TableAccepts(platform, tables.registry, service, feature, uid)))
  {
    hide FeatureIn, HasService, FeatureAccepts, HasUnresolved, StrategyAccepts, TranslatedSlots;
    var f := FeatureIn(DecidingTable(tables, service), service, feature).value;
    TranslationPreservesMeaning(platform, f, uid);
    OnlyTablesWithServiceAccept(platform, tables.preset, service, feature, uid);
    OnlyTablesWithServiceAccept(platform, tables.product, service, feature, uid);
  }

  function RangePolicy(uid: int32): FeaturePolicy {
    FeaturePolicy(None, [IpcPolicy(RANGE, NO_UIDS, uid, uid, None), UNSET, UNSET, UNSET, UNSET, UNSET, UNSET, UNSET])
  }

  /** That policy accepts its uid only, and its translation is not empty. */
  lemma RangePolicyAccepts(platform: Platform, n: int32, uid: uint32)
    requires n > 0
    ensures FeatureAccepts(platform, RangePolicy(n), uid) <==> uid == n
    ensures TranslatedSlots(platform, RangePolicy(n).policies, POLICY_SIZE) != []
    ensures StrategyAccepts(TranslatedSlots(platform, RangePolicy(n).policies, POLICY_SIZE), uid) <==> uid == n
  {
    hide TranslatedSlots, StrategyAccepts;
    var f := RangePolicy(n);
    if uid == n {
      assert PolicyAccepts(platform, f.policies[0], uid);
    }
    TranslationPreservesMeaning(platform, f, uid);
    assert StrategyAccepts(TranslatedSlots(platform, f.policies, POLICY_SIZE), n) by {
      assert PolicyAccepts(platform, f.policies[0], n);
      TranslationPreservesMeaning(platform, f, n);
    }
    NothingAcceptsNothing(n);
  }

  lemma NothingAcceptsNothing(uid: uint32)
    ensures !StrategyAccepts([], uid)
  {
  }

  /** A service set up in the preset table for uid 5 and in the registry for uid 6: the check accepts uid 6,
      the strategy does not. */
  lemma SecondTableMissed(platform: Platform)
    ensures
      var tables := Tables([PolicySetting("s", [RangePolicy(5)])], [], [PolicySetting("s", [RangePolicy(6)])]);
      var strategy := Strategy(platform, tables, "s", None, 1, true);
      strategy.Success? && Allowed(platform, tables, "s", None, 6) && !StrategyAccepts(strategy.value, 6)
  {
    hide StrategyAccepts, FeatureAccepts, TranslatedSlots, RangePolicy;
    RangePolicyAccepts(platform, 5, 6);
    RangePolicyAccepts(platform, 6, 6);
    OnePolicyIsFound(5);
    OnePolicyIsFound(6);
  }

  lemma OnePolicyIsFound(n: int32)
    ensures var table := [PolicySetting("s", [RangePolicy(n)])];
      HasService(table, "s") && FeatureIn(table, "s", None) == Some(RangePolicy(n))
  {
  }

  // ---- the tables in literal terms

  /** Entry i is the first of that service. */
  ghost predicate FirstService(table: seq<PolicySetting>, service: string, i: int) {
    0 <= i < |table| && table[i].service == service && forall k :: 0 <= k < i ==> table[k].service != service
  }

  ghost predicate NoService(table: seq<PolicySetting>, service: string) {
    forall i :: 0 <= i < |table| ==> table[i].service != service
  }

  /** Feature j is the first of that name; no name matches only no name. */
  ghost predicate FirstFeature(features: seq<FeaturePolicy>, feature: Option<string>, j: int) {
    0 <= j < |features| && features[j].feature == feature && forall k :: 0 <= k < j ==> features[k].feature != feature
  }

  ghost predicate NoFeature(features: seq<FeaturePolicy>, feature: Option<string>) {
    forall j :: 0 <= j < |features| ==> features[j].feature != feature
  }

  /** Some slot of the first such feature of the first such service admits the uid. */
  ghost predicate TableAdmits(platform: Platform, table: seq<PolicySetting>, service: string, feature: Option<string>, uid: uint32) {
    exists i, j, k ::
      FirstService(table, service, i) && FirstFeature(table[i].features, feature, j)
      && 0 <= k < 8 && Admits(platform, table[i].features[j].policies[k], uid)
  }

  lemma TableLookups(table: seq<PolicySetting>, service: string, feature: Option<string>)
    ensures forall i :: FirstService(table, service, i) <==> i == ServiceIndex(table, service) && i < |table|
    ensures NoService(table, service) <==> !HasService(table, service)
    ensures forall i :: 0 <= i < |table| ==> forall j :: FirstFeature(table[i].features, feature, j) <==>
      j == FeatureIndex(table[i].features, feature) && j < |table[i].features|
    ensures forall i :: 0 <= i < |table| ==>
      (NoFeature(table[i].features, feature) <==> FeatureIndex(table[i].features, feature) == |table[i].features|)
  {
    hide ServiceIndex, FeatureIndex;
  }

  lemma TableMeaning(platform: Platform, table: seq<PolicySetting>, service: string, feature: Option<string>, uid: uint32)
    ensures TableAccepts(platform, table, service, feature, uid) <==> TableAdmits(platform, table, service, feature, uid)
  {
    hide ServiceIndex, FeatureIndex, FeatureAccepts, Admits, FirstService, FirstFeature;
    TableLookups(table, service, feature);
    var f := FeatureIn(table, service, feature);
    if f.Some? {
      FeatureMeaning(platform, f.value, uid);
    }
  }

  /** The strategy of one table: -3 without the service, -2 without the feature, without a policy set up, or
      without memory; otherwise the translation of the first such feature of the first such service. */
  lemma TableStrategyMeaning(platform: Platform, table: seq<PolicySetting>, service: string, feature: Option<string>, memory: bool)
    ensures NoService(table, service) ==> TableStrategy(platform, table, service, feature, memory) == Failure(-3)
    ensures forall i :: FirstService(table, service, i) && NoFeature(table[i].features, feature) ==>
      TableStrategy(platform, table, service, feature, memory) == Failure(-2)
    ensures forall i, j :: FirstService(table, service, i) && FirstFeature(table[i].features, feature, j) ==>
      var ts := TranslatedSlots(platform, table[i].features[j].policies, 8);
      TableStrategy(platform, table, service, feature, memory) == if ts == [] || !memory then Failure(-2) else Success(ts)
  {
    hide ServiceIndex, FeatureIndex, TranslatedSlots, NoFeature;
    TableLookups(table, service, feature);
  }

  /** The whole compilation: 100 for a caller that is no system service; otherwise the first of the preset,
      product and registry tables that has the service decides, every failure being -2. */
  lemma StrategyMeaning(platform: Platform, tables: Tables, service: string, feature: Option<string>, providerUid: uint32, memory: bool)
    ensures
      var t := if !NoService(tables.preset, service) then tables.preset
        else if !NoService(tables.product, service) then tables.product else tables.registry;
      var r := TableStrategy(platform, t, service, feature, memory);
      Strategy(platform, tables, service, feature, providerUid, memory) ==
        if providerUid !in {0, 1, 2, 6, 7, 8, 9, 10, 11, 12, 19, 20, 3046} then Failure(100)
        else if r.Success? then r else Failure(-2)
  {
    hide TableStrategy, HasService;
    TableLookups(tables.preset, service, feature);
    TableLookups(tables.product, service, feature);
  }

  // ---- evaluation

  method IsUidValid(uid: uint32) returns (ret: int)
    ensures ret == if uid in SYSTEM_SVC_UIDS then AUTH_SUCCESS else INVALID_UID
    ensures ret == if uid in {0, 1, 2, 6, 7, 8, 9, 10, 11, 12, 19, 20, 3046} then 0 else 100
  {
    var i := 0;
    while i < |SYSTEM_SVC_UIDS|
      invariant 0 <= i <= |SYSTEM_SVC_UIDS| && uid !in SYSTEM_SVC_UIDS[..i]
    {
      if SYSTEM_SVC_UIDS[i] == uid {
        return AUTH_SUCCESS;
      }
      i := i + 1;
    }
    return INVALID_UID;
  }

  method IsUidFixed(fixedUid: Uids, consumerUid: uint32) returns (ret: int)
    ensures ret == if FixedHas(fixedUid, consumerUid) then AUTH_SUCCESS else ACCESS_DENIED
    ensures ret == 0 || ret == -1
    ensures ret == 0 <==> exists m :: 0 <= m < 8 && (fixedUid[m] == consumerUid || fixedUid[m] as int + 0x1_0000_0000 == consumerUid)
  {
    FixedMeaning(fixedUid, consumerUid);
    var m := 0;
    while m < UID_SIZE
      invariant 0 <= m <= UID_SIZE
      invariant forall l :: 0 <= l < m ==> ToUnsigned(fixedUid[l]) != consumerUid
    {
      if ToUnsigned(fixedUid[m]) == consumerUid {
        return AUTH_SUCCESS;
      }
      m := m + 1;
    }
    return ACCESS_DENIED;
  }

  method CheckPolicy(platform: Platform, policy: IpcPolicy, consumerUid: uint32) returns (ret: int)
    ensures ret == if PolicyAccepts(platform, policy, consumerUid) then AUTH_SUCCESS
                   else if Unresolved(platform, policy) then INVALID_BUNDLENAME else ACCESS_DENIED
    ensures ret == if Admits(platform, policy, consumerUid) then 0 else if BundleMissing(platform, policy) then 101 else -1
  {
    PolicyMeaning(platform, policy, consumerUid);
    if policy.kind == RANGE {
      if consumerUid >= ToUnsigned(policy.uidMin) && consumerUid <= ToUnsigned(policy.uidMax) {
        return AUTH_SUCCESS;
      }
    } else if policy.kind == FIXED {
      var fixed := IsUidFixed(policy.fixedUid, consumerUid);
      if fixed == AUTH_SUCCESS {
        return AUTH_SUCCESS;
      }
    } else if policy.kind == BUNDLENAME && platform.appFramework {
      var uid := UidOfBundle(platform, policy.bundleName);
      if uid.None? {
        return INVALID_BUNDLENAME;
      }
      if uid.value == consumerUid {
        return AUTH_SUCCESS;
      }
    }
    return ACCESS_DENIED;
  }

  method CheckFeaturePolicies(platform: Platform, featurePolicy: FeaturePolicy, consumerUid: uint32) returns (ret: int)
    ensures ret == if FeatureAccepts(platform, featurePolicy, consumerUid) then AUTH_SUCCESS else ACCESS_DENIED
    ensures ret == 0 || ret == -1
    ensures ret == 0 <==> exists k :: 0 <= k < 8 && Admits(platform, featurePolicy.policies[k], consumerUid)
  {
    hide PolicyAccepts, Unresolved, Admits, BundleMissing;
    FeatureMeaning(platform, featurePolicy, consumerUid);
    var k := 0;
    while k < POLICY_SIZE
      invariant 0 <= k <= POLICY_SIZE
      invariant forall l :: 0 <= l < k ==> !PolicyAccepts(platform, featurePolicy.policies[l], consumerUid)
    {
      ret := CheckPolicy(platform, featurePolicy.policies[k], consumerUid);
      if ret == AUTH_SUCCESS {
        return ret;
      }
      k := k + 1;
    }
    return ACCESS_DENIED;
  }

  method CheckSvcPolicies(platform: Platform, table: seq<PolicySetting>, service: string, feature: Option<string>, consumerUid: uint32)
    returns (ret: int)
    ensures ret == if TableAccepts(platform, table, service, feature, consumerUid) then AUTH_SUCCESS else ACCESS_DENIED
    ensures ret == if TableAdmits(platform, table, service, feature, consumerUid) then 0 else -1
  {
    hide ServiceIndex, FeatureIndex, FeatureAccepts, TableAdmits, Admits;
    TableMeaning(platform, table, service, feature, consumerUid);
    var i := 0;
    while i < |table|
      invariant 0 <= i <= |table|
      invariant forall k :: 0 <= k < i ==> table[k].service != service
    {
      if table[i].service != service {
        i := i + 1;
        continue;
      }
      var j := 0;
      while j < |table[i].features|
        invariant 0 <= j <= |table[i].features|
        invariant forall k :: 0 <= k < j ==> table[i].features[k].feature != feature
      {
        if table[i].features[j].feature != feature {
          j := j + 1;
          continue;
        }
        ret := CheckFeaturePolicies(platform, table[i].features[j], consumerUid);
        return ret;
      }
      break;
    }
    return ACCESS_DENIED;
  }

  method IsCommunicationAllowed(platform: Platform, tables: Tables, service: string, feature: Option<string>, consumerUid: uint32)
    returns (ret: int)
    ensures ret == if Allowed(platform, tables, service, feature, consumerUid) then AUTH_SUCCESS else ACCESS_DENIED
    ensures ret == if TableAdmits(platform, tables.preset, service, feature, consumerUid)
                      || TableAdmits(platform, tables.product, service, feature, consumerUid)
                      || TableAdmits(platform, tables.registry, service, feature, consumerUid) then 0 else -1
  {
    hide TableAccepts, TableAdmits;
    ret := CheckSvcPolicies(platform, tables.preset, service, feature, consumerUid);
    if ret == AUTH_SUCCESS {
      return ret;
    }
    ret := CheckSvcPolicies(platform, tables.product, service, feature, consumerUid);
    if ret == AUTH_SUCCESS {
      return ret;
    }
    ret := CheckSvcPolicies(platform, tables.registry, service, feature, consumerUid);
  }

  // ---- translation

  /** Fills one zeroed output entry. */
  method SetPolicy(platform: Platform, policy: IpcPolicy, out: array<PolicyTrans>, index: int)
    requires 0 <= index < out.Length && out[index] == ZEROED
    modifies out
    ensures out[..] == old(out[..])[index := Translated(platform, policy)]
  {
    if policy.kind == RANGE {
      out[index] := out[index].(kind := RANGE, uidMax := policy.uidMax, uidMin := policy.uidMin);
    } else if policy.kind == FIXED {
      out[index] := out[index].(kind := FIXED, fixedUid := policy.fixedUid);
    } else if policy.kind == BUNDLENAME && platform.appFramework {
      out[index] := out[index].(kind := BUNDLENAME);
      var uid := UidOfBundle(platform, policy.bundleName);
      if uid.Some? {
        out[index] := out[index].(fixedUid := out[index].fixedUid[0 := ToInt32(uid.value)]);
      }
    }
  }

  /** First pass: how many slots are valid. */
  method CountValid(platform: Platform, slots: Slots) returns (num: int)
    ensures num == |TranslatedSlots(platform, slots, POLICY_SIZE)|
  {
    num := 0;
    var k := 0;
    while k < POLICY_SIZE
      invariant 0 <= k <= POLICY_SIZE && num == |TranslatedSlots(platform, slots, k)|
    {
      if IsPolicyValid(platform, slots[k].kind) {
        num := num + 1;
      }
      k := k + 1;
    }
  }

  lemma {:induction false} SlotsGrow(platform: Platform, slots: Slots, k: nat, n: nat)
    requires k <= n <= POLICY_SIZE
    ensures |TranslatedSlots(platform, slots, k)| <= |TranslatedSlots(platform, slots, n)|
  {
    if k == n {
    } else {
      SlotsGrow(platform, slots, k, n - 1);
    }
  }

  /** Counts the valid slots, then fills exactly that many entries with them, in order. */
  method SetPolicies(platform: Platform, featurePolicy: FeaturePolicy, memory: bool)
    returns (ret: int, policies: array?<PolicyTrans>, policyNum: int)
    ensures
      var ts := TranslatedSlots(platform, featurePolicy.policies, POLICY_SIZE);
      if ts == [] then ret == NO_POLICY_SET && policies == null
      else if !memory then ret == AUTH_MALLOC_FAIL && policies == null
      else ret == AUTH_SUCCESS && policies != null && policyNum == |ts| && policies[..] == ts
  {
    hide Translated;
    policies, policyNum := null, 0;
    var slots := featurePolicy.policies;
    var num := CountValid(platform, slots);
    if num == 0 {
      return NO_POLICY_SET, null, 0;
    }
    if !memory {
      return AUTH_MALLOC_FAIL, null, 0;
    }
    policies := new PolicyTrans[num](_ => ZEROED);
    var index := 0;
    var k := 0;
    while k < POLICY_SIZE
      invariant 0 <= k <= POLICY_SIZE && policies != null && policies.Length == num && fresh(policies)
      invariant 0 <= index <= num && policies[..index] == TranslatedSlots(platform, slots, k)
      invariant forall i :: index <= i < num ==> policies[i] == ZEROED
    {
      if IsPolicyValid(platform, slots[k].kind) {
        SlotsGrow(platform, slots, k + 1, POLICY_SIZE);
        ghost var before := policies[..];
        SetPolicy(platform, slots[k], policies, index);
        assert policies[..] == before[index := Translated(platform, slots[k])];
        assert policies[..index + 1] == before[..index] + [Translated(platform, slots[k])];
        forall i | index < i < num ensures policies[i] == ZEROED { assert policies[..][i] == before[i]; }
        index := index + 1;
      }
      k := k + 1;
    }
    assert policies[..] == policies[..index];
    return AUTH_SUCCESS, policies, num;
  }

  /** What the caller of a translation receives. */
  ghost predicate Delivers(ret: int, policies: array?<PolicyTrans>, policyNum: int, r: Result<seq<PolicyTrans>>)
    reads policies
  {
    match r
    case Failure(e) => ret == e && policies == null
    case Success(ts) => ret == AUTH_SUCCESS && policies != null && policyNum == |ts| && policies[..] == ts
  }

  method SetPresetPolicies(platform: Platform, table: seq<PolicySetting>, service: string, feature: Option<string>, memory: bool)
    returns (ret: int, policies: array?<PolicyTrans>, policyNum: int)
    ensures Delivers(ret, policies, policyNum, TableStrategy(platform, table, service, feature, memory))
  {
    hide ServiceIndex, FeatureIndex, TranslatedSlots;
    policies, policyNum := null, 0;
    var i := 0;
    while i < |table|
      invariant 0 <= i <= |table| && policies == null
      invariant forall k :: 0 <= k < i ==> table[k].service != service
    {
      if table[i].service != service {
        i := i + 1;
        continue;
      }
      var j := 0;
      while j < |table[i].features|
        invariant 0 <= j <= |table[i].features| && policies == null
        invariant forall k :: 0 <= k < j ==> table[i].features[k].feature != feature
      {
        if table[i].features[j].feature != feature {
          j := j + 1;
          continue;
        }
        ret, policies, policyNum := SetPolicies(platform, table[i].features[j], memory);
        if ret == AUTH_SUCCESS {
          return;
        }
        ret := NO_POLICY_SET;
        return;
      }
      return NO_POLICY_SET, null, 0;
    }
    return POLICY_NOT_FOUND, null, 0;
  }

  method GetCommunicationStrategy(platform: Platform, tables: Tables, service: string, feature: Option<string>,
                                  providerUid: uint32, memory: bool)
    returns (ret: int, policies: array?<PolicyTrans>, policyNum: int)
    ensures Delivers(ret, policies, policyNum, Strategy(platform, tables, service, feature, providerUid, memory))
  {
    hide FeatureIn, HasService, TranslatedSlots;
    policies, policyNum := null, 0;
    ret := IsUidValid(providerUid);
    if ret == INVALID_UID {
      return;
    }
    ret, policies, policyNum := SetPresetPolicies(platform, tables.preset, service, feature, memory);
    if ret != POLICY_NOT_FOUND {
      return;
    }
    ret, policies, policyNum := SetPresetPolicies(platform, tables.product, service, feature, memory);
    if ret != POLICY_NOT_FOUND {
      return;
    }
    ret, policies, policyNum := SetPresetPolicies(platform, tables.registry, service, feature, memory);
    if ret != POLICY_NOT_FOUND {
      return;
    }
    return NO_POLICY_SET, null, 0;
  }
}
