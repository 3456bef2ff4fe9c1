/** Persisting cooldown ends in one ConfigMap per policy. */
module CooldownPersistence {
  import opened Basics
  import opened Text
  import opened CooldownKeys

  const CURRENT_VERSION := "1"

  /** The instant that an RFC 3339 timestamp text (section 5.6) denotes, if it parses. */
  datatype Timestamp = At(at: Time) | Malformed

  /** Formatting drops everything below the second. */
  function Truncated(t: Time): Time {
    t - t % SECOND
  }

  /** `cooldowns` is None when the data key is absent, empty or not valid JSON. */
  datatype ConfigMap = ConfigMap(version: Option<string>, cooldowns: Option<map<string, Timestamp>>)

  /** `spec.persistence` and its `enabled` flag; both are optional. */
  type PersistenceSpec = Option<Option<bool>>

  predicate PersistenceEnabled(spec: PersistenceSpec) {
    match spec
    case Some(Some(enabled)) => enabled
    case _ => true
  }

  /** Persistence is on unless it is turned off explicitly. */
  method IsPolicyPersistenceEnabled(spec: PersistenceSpec) returns (enabled: bool)
    ensures enabled == PersistenceEnabled(spec)
  {
    if spec == None {
      return true;
    }
    if spec.value == None {
      return true;
    }
    return spec.value.value;
  }

  type Policies = map<PolicyId, PersistenceSpec>
  type Store = map<PolicyId, ConfigMap>

  /** An API call that fails while one policy is being synced. */
  datatype Fault = PolicyUnreadable | ConfigMapUnreadable | CreateFails | UpdateFails | UpdateConflicts

  // ---------------------------------------------------------------- what a sync stores

  /** Not expired, and with at least the minimum duration left. */
  predicate Durable(end: Time, now: Time, minDuration: Time) {
    end >= now && end - now >= minDuration
  }

  /** The entries of one policy that a sync at `now` has to store, by short key. */
  function Group(cooldowns: map<string, Time>, now: Time, minDuration: Time, policy: PolicyId): map<string, Time> {
    ParseInjective();
    GroupBy(ParseFullKey, cooldowns, now, minDuration, policy)
  }

  function GroupBy(parse: string -> Option<FullKey>, cooldowns: map<string, Time>, now: Time, minDuration: Time, policy: PolicyId)
    : map<string, Time>
    requires Injective(parse)
  {
    map key | key in cooldowns && Durable(cooldowns[key], now, minDuration) && parse(key).Some? && parse(key).value.policy == policy
      :: parse(key).value.shortKey := cooldowns[key]
  }

  ghost predicate Injective(parse: string -> Option<FullKey>) {
    forall k1, k2 | parse(k1).Some? && parse(k1) == parse(k2) :: k1 == k2
  }

  lemma ParseInjective()
    ensures Injective(ParseFullKey)
  {
    forall k1, k2 | ParseFullKey(k1).Some? && ParseFullKey(k1) == ParseFullKey(k2)
      ensures k1 == k2
    {
      ParseThenMake(k1);
      ParseThenMake(k2);
    }
  }

  /** The ends in a ConfigMap written by a sync. */
  function Serialized(entries: map<string, Time>): map<string, Timestamp> {
    map shortKey | shortKey in entries :: At(Truncated(entries[shortKey]))
  }

  function Written(entries: map<string, Time>): ConfigMap {
    ConfigMap(Some(CURRENT_VERSION), Some(Serialized(entries)))
  }

  /** Whether writing the ConfigMap of an existing, enabled policy goes through. */
  predicate WriteSucceeds(exists_: bool, fault: Option<Fault>) {
    match fault
    case None => true
    case Some(CreateFails) => exists_
    case Some(UpdateFails) => !exists_
    case Some(UpdateConflicts) => !exists_
    case Some(_) => false
  }

  /** Whether syncing one policy reports an error; a conflicting update does not. */
  predicate ReportsError(policies: Policies, store: Store, policy: PolicyId, fault: Option<Fault>) {
    || fault == Some(PolicyUnreadable)
    || (policy in policies && PersistenceEnabled(policies[policy])
        && !WriteSucceeds(policy in store, fault) && fault != Some(UpdateConflicts))
  }

  predicate Persists(policies: Policies, store: Store, policy: PolicyId, fault: Option<Fault>) {
    && policy in policies && PersistenceEnabled(policies[policy])
    && WriteSucceeds(policy in store, fault)
  }

  /** All non-empty groups, by policy. */
  function Groups(cooldowns: map<string, Time>, now: Time, minDuration: Time): map<PolicyId, map<string, Time>> {
    map policy | policy in PoliciesIn(ParseFullKey, cooldowns, now, minDuration) :: Group(cooldowns, now, minDuration, policy)
  }

  /** The policies of the durable cooldowns. */
  function PoliciesIn(parse: string -> Option<FullKey>, cooldowns: map<string, Time>, now: Time, minDuration: Time): set<PolicyId> {
    set key | key in cooldowns && Durable(cooldowns[key], now, minDuration) && parse(key).Some? :: parse(key).value.policy
  }

  /** What one sync works on: the API server before it, the groups to store, and the API faults it meets. */
  datatype SyncInput = SyncInput(policies: Policies, before: Store, groups: map<PolicyId, map<string, Time>>, faults: map<PolicyId, Fault>)
  {
    predicate Writes(policy: PolicyId) {
      policy in groups && Persists(policies, before, policy, FaultOf(policy))
    }

    predicate Fails(policy: PolicyId) {
      policy in groups && ReportsError(policies, before, policy, FaultOf(policy))
    }

    function FaultOf(policy: PolicyId): Option<Fault> {
      if policy in faults then Some(faults[policy]) else None
    }

    /** The ConfigMaps once all policies but the pending ones are synced. */
    function StoreBut(pending: set<string>): Store {
      map policy | policy in before.Keys + groups.Keys && (policy in before || (Writes(policy) && !Pending(pending, policy)))
        :: if Writes(policy) && !Pending(pending, policy) then Written(groups[policy]) else before[policy]
    }

    /** The policies, of those no longer pending, whose sync reported an error. */
    function FailuresBut(pending: set<string>): set<PolicyId> {
      set policy | policy in groups && Fails(policy) && !Pending(pending, policy)
    }

    /** The ConfigMaps after the sync. */
    function After(): Store {
      StoreBut({})
    }

    /** Whether the sync reports an error. */
    predicate AnyFails() {
      FailuresBut({}) != {}
    }
  }

  predicate Pending(pending: set<string>, policy: PolicyId) {
    '/' !in policy.ns && PolicyKey(policy) in pending
  }

  function PolicyKey(policy: PolicyId): string {
    policy.ns + "/" + policy.name
  }

  // ---------------------------------------------------------------- what a load restores

  /** The end stored for a full key, if its policy is enabled and its ConfigMap readable. */
  function StoredEnd(policies: Policies, store: Store, key: string): Option<Time> {
    match SplitKey(key)
    case None => None
    case Some(k) =>
      if k.policy in policies && PersistenceEnabled(policies[k.policy])
      then EntryEnd(store, k.policy, k.shortKey) else None
  }

  function EntryEnd(store: Store, policy: PolicyId, shortKey: string): Option<Time> {
    var entries := ReadableEntries(store, policy);
    if shortKey in entries && entries[shortKey].At? then Some(entries[shortKey].at) else None
  }

  /** Missing ConfigMaps, foreign versions and unreadable data count as empty. */
  function ReadableEntries(store: Store, policy: PolicyId): map<string, Timestamp> {
    if policy !in store then map[]
    else if store[policy].version.Some? && store[policy].version.value != CURRENT_VERSION then map[]
    else match store[policy].cooldowns
      case None => map[]
      case Some(entries) => entries
  }

  /** The API calls that fail during a load: the listing of the policies, or the reading of some ConfigMaps. */
  datatype LoadFaults = LoadFaults(listFails: bool, unreadable: set<PolicyId>)

  /** What a load gets to see: an unreadable ConfigMap counts as missing, a failed listing hides all. */
  function Reached(store: Store, faults: LoadFaults): Store {
    if faults.listFails then map[] else store - faults.unreadable
  }

  /** The load does not get to see what is stored for the key. */
  predicate Misses(faults: LoadFaults, key: string) {
    faults.listFails || (SplitKey(key).Some? && SplitKey(key).value.policy in faults.unreadable)
  }

  lemma ReachedEnd(policies: Policies, store: Store, faults: LoadFaults, key: string)
    ensures StoredEnd(policies, Reached(store, faults), key) ==
              if Misses(faults, key) then None else StoredEnd(policies, store, key)
  {
  }

  predicate Restored(policies: Policies, store: Store, now: Time, key: string, cooldowns: map<string, Time>) {
    var end := StoredEnd(policies, store, key);
    && (key in cooldowns <==> end.Some? && end.value >= now)
    && (key in cooldowns ==> end.Some? && cooldowns[key] == end.value)
  }

  /** The effect of a load: exactly the unexpired stored ends of enabled policies. */
  ghost predicate Loaded(policies: Policies, store: Store, now: Time, cooldowns: map<string, Time>) {
    forall key :: Restored(policies, store, now, key, cooldowns)
  }

  ghost predicate ValidPolicies(policies: Policies) {
    forall policy | policy in policies :: ValidPolicyId(policy)
  }

  // ---------------------------------------------------------------- grouping proofs

  function Restrict(cooldowns: map<string, Time>, keys: set<string>): map<string, Time> {
    map key | key in cooldowns && key in keys :: cooldowns[key]
  }

  /** Adding one cooldown changes exactly the group of its own policy. */
  lemma GroupInsert(parse: string -> Option<FullKey>, cooldowns: map<string, Time>, key: string, end: Time, now: Time,
                    minDuration: Time, policy: PolicyId)
    requires Injective(parse) && key !in cooldowns
    ensures var before := GroupBy(parse, cooldowns, now, minDuration, policy);
            GroupBy(parse, cooldowns[key := end], now, minDuration, policy) ==
              if Durable(end, now, minDuration) && parse(key).Some? && parse(key).value.policy == policy
              then before[parse(key).value.shortKey := end] else before
  {
  }

  lemma GroupAdd(cooldowns: map<string, Time>, done: set<string>, key: string, now: Time, minDuration: Time, policy: PolicyId)
    requires key in cooldowns && key !in done
    ensures var before := Group(Restrict(cooldowns, done), now, minDuration, policy);
            var parsed := ParseFullKey(key);
            Group(Restrict(cooldowns, done + {key}), now, minDuration, policy) ==
              if Durable(cooldowns[key], now, minDuration) && parsed.Some? && parsed.value.policy == policy
              then before[parsed.value.shortKey := cooldowns[key]] else before
  {
    assert Restrict(cooldowns, done + {key}) == Restrict(cooldowns, done)[key := cooldowns[key]];
    ParseInjective();
    GroupInsert(ParseFullKey, Restrict(cooldowns, done), key, cooldowns[key], now, minDuration, policy);
  }

  /** Group entries read back by full key: the group is the policy's share of the cooldowns. */
  lemma GroupEntries(cooldowns: map<string, Time>, now: Time, minDuration: Time, policy: PolicyId, shortKey: string)
    requires ValidFullKey(FullKey(policy, shortKey))
    ensures var key := MakeFullKey(policy, shortKey);
            var entries := Group(cooldowns, now, minDuration, policy);
            && (shortKey in entries <==> key in cooldowns && Durable(cooldowns[key], now, minDuration))
            && (shortKey in entries ==> entries[shortKey] == cooldowns[key])
  {
    MakeThenParse(FullKey(policy, shortKey));
    ParseInjective();
  }

  /** Every group entry comes from the cooldown that its full key names. */
  lemma GroupOrigin(cooldowns: map<string, Time>, now: Time, minDuration: Time, policy: PolicyId, shortKey: string)
    requires shortKey in Group(cooldowns, now, minDuration, policy)
    ensures ValidFullKey(FullKey(policy, shortKey))
    ensures var key := MakeFullKey(policy, shortKey);
            key in cooldowns && Durable(cooldowns[key], now, minDuration)
            && Group(cooldowns, now, minDuration, policy)[shortKey] == cooldowns[key]
  {
    ParseInjective();
    var key :| key in cooldowns && Durable(cooldowns[key], now, minDuration)
               && ParseFullKey(key) == Some(FullKey(policy, shortKey));
    ParseThenMake(key);
  }

  // ---------------------------------------------------------------- the API server and the component

  class ApiServer {
    var policies: Policies
    var configMaps: Store

    constructor (policies: Policies, configMaps: Store)
      ensures this.policies == policies && this.configMaps == configMaps
    {
      this.policies := policies;
      this.configMaps := configMaps;
    }
  }

  class CooldownPersistence {
    const minDuration: Time
    var dirtyEntries: set<string>

    constructor (minDuration: Time)
      ensures this.minDuration == minDuration && dirtyEntries == {}
    {
      this.minDuration := minDuration;
      dirtyEntries := {};
    }

    /** Flags an entry for the next sync, unless too little of it is left at `now`. */
    method MarkDirty(key: string, end: Time, now: Time)
      modifies this
      ensures dirtyEntries == old(dirtyEntries) + (if end - now >= minDuration then {key} else {})
    {
      if end - now < minDuration {
        return;
      }
      dirtyEntries := dirtyEntries + {key};
    }

    method SyncPolicyConfigMap(api: ApiServer, policy: PolicyId, entries: map<string, Time>, fault: Option<Fault>)
      returns (failed: bool)
      modifies api`configMaps
      ensures failed == ReportsError(api.policies, old(api.configMaps), policy, fault)
      ensures api.configMaps ==
        if Persists(api.policies, old(api.configMaps), policy, fault)
        then old(api.configMaps)[policy := Written(entries)] else old(api.configMaps)
    {
      if fault == Some(PolicyUnreadable) {
        return true;
      }
      if policy !in api.policies {
        return false;
      }
      var enabled := IsPolicyPersistenceEnabled(api.policies[policy]);
      if !enabled {
        return false;
      }

      var serializable: map<string, Timestamp> := map[];
      var pending := entries.Keys;
      while pending != {}
        invariant pending <= entries.Keys
        invariant serializable.Keys == entries.Keys - pending
        invariant forall k | k in serializable :: serializable[k] == At(Truncated(entries[k]))
        decreases pending
      {
        var shortKey :| shortKey in pending;
        serializable := serializable[shortKey := At(Truncated(entries[shortKey]))];
        pending := pending - {shortKey};
      }
      assert serializable == Serialized(entries);

      if fault == Some(ConfigMapUnreadable) {
        return true;
      }
      if policy !in api.configMaps {
        if fault == Some(CreateFails) {
          return true;
        }
        api.configMaps := api.configMaps[policy := ConfigMap(Some(CURRENT_VERSION), Some(serializable))];
        return false;
      }
      if fault == Some(UpdateConflicts) {
        return false;
      }
      if fault == Some(UpdateFails) {
        return true;
      }
      api.configMaps := api.configMaps[policy := ConfigMap(Some(CURRENT_VERSION), Some(serializable))];
      return false;
    }

    /** The first loop of a sync: durable cooldowns, by policy key and short key. */
    method GroupByPolicy(cooldowns: map<string, Time>, now: Time) returns (byPolicy: map<string, map<string, Time>>)
      ensures HoldsOnly(byPolicy, Groups(cooldowns, now, minDuration)) && HoldsAll(byPolicy, Groups(cooldowns, now, minDuration))
    {
      byPolicy := map[];
      var pending := cooldowns.Keys;
      ghost var done: set<string> := {};
      assert forall policy :: Group(Restrict(cooldowns, {}), now, minDuration, policy) == map[];
      while pending != {}
        invariant done == cooldowns.Keys - pending && pending <= cooldowns.Keys
        invariant Grouped(cooldowns, done, now, byPolicy)
        decreases pending
      {
        var key :| key in pending;
        pending := pending - {key};
        ghost var seen := done;
        done := done + {key};
        var end := cooldowns[key];
        if end < now || end - now < minDuration {
          GroupedSkip(cooldowns, seen, key, now, byPolicy);
          continue;
        }
        var parsed := ParseFullKey(key);
        if parsed.None? {
          GroupedSkip(cooldowns, seen, key, now, byPolicy);
          continue;
        }
        var policyKey := PolicyKey(parsed.value.policy);
        var entries := if policyKey in byPolicy then byPolicy[policyKey] else map[];
        GroupedAdd(cooldowns, seen, key, now, byPolicy);
        byPolicy := byPolicy[policyKey := entries[parsed.value.shortKey := end]];
      }
      assert Restrict(cooldowns, done) == cooldowns;
      GroupsHold(cooldowns, now, minDuration, byPolicy);
    }

    ghost predicate Grouped(cooldowns: map<string, Time>, done: set<string>, now: Time, byPolicy: map<string, map<string, Time>>) {
      HoldsGroups(byPolicy, policy => Group(Restrict(cooldowns, done), now, minDuration, policy))
    }

    lemma GroupedSkip(cooldowns: map<string, Time>, done: set<string>, key: string, now: Time, byPolicy: map<string, map<string, Time>>)
      requires key in cooldowns && key !in done && Grouped(cooldowns, done, now, byPolicy)
      requires !Durable(cooldowns[key], now, minDuration) || ParseFullKey(key).None?
      ensures Grouped(cooldowns, done + {key}, now, byPolicy)
    {
      forall policy
        ensures Group(Restrict(cooldowns, done + {key}), now, minDuration, policy) == Group(Restrict(cooldowns, done), now, minDuration, policy)
      {
        GroupAdd(cooldowns, done, key, now, minDuration, policy);
      }
    }

    lemma GroupedAdd(cooldowns: map<string, Time>, done: set<string>, key: string, now: Time, byPolicy: map<string, map<string, Time>>)
      requires key in cooldowns && key !in done && Grouped(cooldowns, done, now, byPolicy)
      requires Durable(cooldowns[key], now, minDuration) && ParseFullKey(key).Some?
      ensures Grouped(cooldowns, done + {key}, now, Inserted(byPolicy, ParseFullKey(key).value, cooldowns[key]))
    {
      ParseThenMake(key);
      var parsed := ParseFullKey(key).value;
      var before := (policy: PolicyId) => Group(Restrict(cooldowns, done), now, minDuration, policy);
      var after := (policy: PolicyId) => Group(Restrict(cooldowns, done + {key}), now, minDuration, policy);
      forall policy: PolicyId
        ensures after(policy) ==
                  if policy == parsed.policy then before(policy)[parsed.shortKey := cooldowns[key]] else before(policy)
      {
        GroupAdd(cooldowns, done, key, now, minDuration, policy);
      }
      InsertedGroups(byPolicy, before, after, parsed, cooldowns[key]);
    }

    /** Writes the durable cooldowns of every policy, if anything is dirty. */
    method Sync(api: ApiServer, cooldowns: map<string, Time>, now: Time, faults: map<PolicyId, Fault>) returns (failed: bool)
      modifies this, api`configMaps
      ensures dirtyEntries == {}
      ensures old(dirtyEntries) == {} ==> api.configMaps == old(api.configMaps) && !failed
      ensures old(dirtyEntries) != {} ==>
                var input := SyncInput(api.policies, old(api.configMaps), Groups(cooldowns, now, minDuration), faults);
                api.configMaps == input.After() && failed == input.AnyFails()
    {
      if dirtyEntries == {} {
        return false;
      }
      ghost var input := SyncInput(api.policies, api.configMaps, Groups(cooldowns, now, minDuration), faults);
      var byPolicy := GroupByPolicy(cooldowns, now);
      SyncStart(input, byPolicy);
      failed := SyncGroups(api, input, faults, byPolicy);
      dirtyEntries := {};
    }

    /** The second loop of a sync: one ConfigMap per group. */
    method SyncGroups(api: ApiServer, ghost input: SyncInput, faults: map<PolicyId, Fault>,
                      byPolicy: map<string, map<string, Time>>)
      returns (failed: bool)
      requires input.policies == api.policies && input.faults == faults && HoldsOnly(byPolicy, input.groups)
      requires api.configMaps == input.StoreBut(byPolicy.Keys) && input.FailuresBut(byPolicy.Keys) == {}
      modifies api`configMaps
      ensures api.configMaps == input.After() && failed == input.AnyFails()
    {
      failed := false;
      var pending := byPolicy.Keys;
      while pending != {}
        invariant pending <= byPolicy.Keys
        invariant api.configMaps == input.StoreBut(pending)
        invariant failed == (input.FailuresBut(pending) != {})
        decreases pending
      {
        var policyKey :| policyKey in pending;
        var error := SyncPolicy(api, input, faults, byPolicy, pending, policyKey);
        failed := failed || error;
        pending := pending - {policyKey};
      }
    }

    /** One round of that loop. */
    method SyncPolicy(api: ApiServer, ghost input: SyncInput, faults: map<PolicyId, Fault>,
                      byPolicy: map<string, map<string, Time>>, ghost pending: set<string>, policyKey: string)
      returns (error: bool)
      requires input.policies == api.policies && input.faults == faults && HoldsOnly(byPolicy, input.groups)
      requires policyKey in pending && pending <= byPolicy.Keys && api.configMaps == input.StoreBut(pending)
      modifies api`configMaps
      ensures api.configMaps == input.StoreBut(pending - {policyKey})
      ensures (input.FailuresBut(pending - {policyKey}) != {}) == (input.FailuresBut(pending) != {} || error)
    {
      assert IsGroup(input.groups, policyKey, byPolicy[policyKey]);
      var parts := SplitN(policyKey, '/', 2);
      var policy := PolicyId(parts[0], parts[1]);
      KeyOfPolicy(policyKey);
      SyncOneMore(input, pending, policy);
      var fault := if policy in faults then Some(faults[policy]) else None;
      error := SyncPolicyConfigMap(api, policy, byPolicy[policyKey], fault);
    }

    /** Stops the component: everything in memory is marked and synced once more. */
    method Stop(api: ApiServer, cooldowns: Option<map<string, Time>>, now: Time, faults: map<PolicyId, Fault>)
      modifies this, api`configMaps
      ensures cooldowns.None? || cooldowns.value == map[] ==>
                dirtyEntries == old(dirtyEntries) && api.configMaps == old(api.configMaps)
      ensures cooldowns.Some? && cooldowns.value != map[] ==>
                dirtyEntries == {}
                && api.configMaps == SyncInput(api.policies, old(api.configMaps), Groups(cooldowns.value, now, minDuration), faults).After()
    {
      if cooldowns.None? || |cooldowns.value| == 0 {
        return;
      }
      var key :| key in cooldowns.value;
      dirtyEntries := dirtyEntries + cooldowns.value.Keys;
      assert key in dirtyEntries;
      var _ := Sync(api, cooldowns.value, now, faults);
    }

    /** Restores the unexpired ends of all enabled policies, as far as their ConfigMaps can be read. */
    method Load(api: ApiServer, faults: LoadFaults, now: Time) returns (cooldowns: map<string, Time>)
      requires ValidPolicies(api.policies)
      ensures Loaded(api.policies, Reached(api.configMaps, faults), now, cooldowns)
    {
      cooldowns := map[];
      ghost var store := Reached(api.configMaps, faults);
      if faults.listFails {
        forall key
          ensures Restored(api.policies, store, now, key, cooldowns)
        {
          ReachedEnd(api.policies, api.configMaps, faults, key);
        }
        return;
      }
      var pending := api.policies.Keys;
      while pending != {}
        invariant pending <= api.policies.Keys
        invariant Loaded(Without(api.policies, pending), store, now, cooldowns)
        decreases pending
      {
        var policy :| policy in pending;
        var rest := pending - {policy};
        assert rest + {policy} == pending;
        var enabled := IsPolicyPersistenceEnabled(api.policies[policy]);
        if enabled {
          cooldowns := LoadPolicyState(api, faults, policy, rest, cooldowns, now);
        } else {
          forall key
            ensures Restored(Without(api.policies, rest), store, now, key, cooldowns)
          {
            DisabledLoadsNothing(api.policies, store, policy, rest, key);
            assert Restored(Without(api.policies, pending), store, now, key, cooldowns);
          }
        }
        pending := rest;
      }
      assert Without(api.policies, {}) == api.policies;
    }

    method LoadPolicyState(api: ApiServer, faults: LoadFaults, policy: PolicyId, ghost rest: set<PolicyId>,
                           before: map<string, Time>, now: Time)
      returns (cooldowns: map<string, Time>)
      requires policy in api.policies && policy !in rest && ValidPolicyId(policy)
      requires PersistenceEnabled(api.policies[policy]) && !faults.listFails
      requires Loaded(Without(api.policies, rest + {policy}), Reached(api.configMaps, faults), now, before)
      ensures Loaded(Without(api.policies, rest), Reached(api.configMaps, faults), now, cooldowns)
    {
      cooldowns := before;
      ghost var store := Reached(api.configMaps, faults);
      if policy in faults.unreadable {
        forall key
          ensures Restored(Without(api.policies, rest), store, now, key, cooldowns)
        {
          LoadedEntry(api.policies, store, policy, rest, key);
          assert Restored(Without(api.policies, rest + {policy}), store, now, key, before);
        }
        return;
      }
      var raw := ReadableEntries(api.configMaps, policy);
      assert raw == ReadableEntries(store, policy);
      var pending := raw.Keys;
      while pending != {}
        invariant pending <= raw.Keys
        invariant forall key :: EntryLoaded(raw, policy, pending, now, key, before, cooldowns)
        decreases pending
      {
        var shortKey :| shortKey in pending;
        ghost var next := WithEntry(raw, policy, shortKey, now, cooldowns);
        forall key
          ensures EntryLoaded(raw, policy, pending - {shortKey}, now, key, before, next)
        {
          EntryStep(raw, policy, pending, shortKey, now, key, before, cooldowns);
        }
        pending := pending - {shortKey};
        if raw[shortKey].Malformed? || raw[shortKey].at < now {
          assert cooldowns == next;
          continue;
        }
        cooldowns := cooldowns[MakeFullKey(policy, shortKey) := raw[shortKey].at];
        assert cooldowns == next;
      }
      forall key
        ensures Restored(Without(api.policies, rest), store, now, key, cooldowns)
      {
        LoadedEntry(api.policies, store, policy, rest, key);
        assert Restored(Without(api.policies, rest + {policy}), store, now, key, before);
        assert EntryLoaded(raw, policy, {}, now, key, before, cooldowns);
      }
    }
  }

  /** One key while the entries of one policy are being loaded over the earlier policies. */
  predicate EntryLoaded(raw: map<string, Timestamp>, policy: PolicyId, pending: set<string>, now: Time, key: string,
                        before: map<string, Time>, cooldowns: map<string, Time>)
  {
    var k := SplitKey(key);
    if k.Some? && k.value.policy == policy && k.value.shortKey in raw && k.value.shortKey !in pending
       && raw[k.value.shortKey].At? && raw[k.value.shortKey].at >= now
    then key in cooldowns && cooldowns[key] == raw[k.value.shortKey].at
    else (key in cooldowns <==> key in before) && (key in before ==> cooldowns[key] == before[key])
  }

  lemma LoadedEntry(policies: Policies, store: Store, policy: PolicyId, rest: set<PolicyId>, key: string)
    requires policy in policies && policy !in rest && PersistenceEnabled(policies[policy])
    ensures var k := SplitKey(key);
            if k.Some? && k.value.policy == policy
            then StoredEnd(Without(policies, rest), store, key) == EntryEnd(store, policy, k.value.shortKey)
                 && StoredEnd(Without(policies, rest + {policy}), store, key) == None
            else StoredEnd(Without(policies, rest), store, key) == StoredEnd(Without(policies, rest + {policy}), store, key)
  {
  }

  lemma DisabledLoadsNothing(policies: Policies, store: Store, policy: PolicyId, rest: set<PolicyId>, key: string)
    requires policy in policies && !PersistenceEnabled(policies[policy])
    ensures StoredEnd(Without(policies, rest), store, key) == StoredEnd(Without(policies, rest + {policy}), store, key)
  {
  }

  function Without(policies: Policies, excluded: set<PolicyId>): Policies {
    map policy | policy in policies && policy !in excluded :: policies[policy]
  }

  /** The restored cooldowns with one more entry, unless it is malformed or expired. */
  function WithEntry(raw: map<string, Timestamp>, policy: PolicyId, shortKey: string, now: Time, cooldowns: map<string, Time>): map<string, Time>
    requires shortKey in raw
  {
    if raw[shortKey].Malformed? || raw[shortKey].at < now then cooldowns
    else cooldowns[MakeFullKey(policy, shortKey) := raw[shortKey].at]
  }

  lemma EntryStep(raw: map<string, Timestamp>, policy: PolicyId, pending: set<string>, shortKey: string, now: Time, key: string,
                  before: map<string, Time>, cooldowns: map<string, Time>)
    requires ValidPolicyId(policy) && shortKey in pending && shortKey in raw
    requires EntryLoaded(raw, policy, pending, now, key, before, cooldowns)
    ensures EntryLoaded(raw, policy, pending - {shortKey}, now, key, before, WithEntry(raw, policy, shortKey, now, cooldowns))
  {
    MakeThenSplit(FullKey(policy, shortKey));
    SplitThenMake(key);
  }

  /** The nested map of a sync holds exactly the non-empty groups. */
  ghost predicate HoldsGroups(byPolicy: map<string, map<string, Time>>, group: PolicyId -> map<string, Time>) {
    && (forall policyKey | policyKey in byPolicy :: HoldsGroup(policyKey, byPolicy[policyKey], group))
    && (forall policy | group(policy) != map[] :: Pending(byPolicy.Keys, policy))
  }

  predicate HoldsGroup(policyKey: string, entries: map<string, Time>, group: PolicyId -> map<string, Time>) {
    PolicyOf(policyKey).Some? && entries == group(PolicyOf(policyKey).value) != map[]
  }

  ghost predicate IsGroup(groups: map<PolicyId, map<string, Time>>, policyKey: string, entries: map<string, Time>) {
    var policy := PolicyOf(policyKey);
    policy.Some? && policy.value in groups && entries == groups[policy.value]
  }

  ghost predicate HoldsOnly(byPolicy: map<string, map<string, Time>>, groups: map<PolicyId, map<string, Time>>) {
    forall policyKey | policyKey in byPolicy :: IsGroup(groups, policyKey, byPolicy[policyKey])
  }

  ghost predicate HoldsAll(byPolicy: map<string, map<string, Time>>, groups: map<PolicyId, map<string, Time>>) {
    forall policy | policy in groups :: Pending(byPolicy.Keys, policy)
  }

  lemma GroupsAreGroups(cooldowns: map<string, Time>, now: Time, minDuration: Time, policy: PolicyId)
    ensures var groups := Groups(cooldowns, now, minDuration);
            var group := Group(cooldowns, now, minDuration, policy);
            (policy in groups <==> group != map[]) && (policy in groups ==> groups[policy] == group)
  {
    ParseInjective();
    NonEmptyGroups(ParseFullKey, cooldowns, now, minDuration, policy);
    var policies := PoliciesIn(ParseFullKey, cooldowns, now, minDuration);
    assert Groups(cooldowns, now, minDuration).Keys == policies;
  }

  lemma NonEmptyGroups(parse: string -> Option<FullKey>, cooldowns: map<string, Time>, now: Time, minDuration: Time, policy: PolicyId)
    requires Injective(parse)
    ensures policy in PoliciesIn(parse, cooldowns, now, minDuration) <==> GroupBy(parse, cooldowns, now, minDuration, policy) != map[]
  {
    var group := GroupBy(parse, cooldowns, now, minDuration, policy);
    if policy in PoliciesIn(parse, cooldowns, now, minDuration) {
      var key :| key in cooldowns && Durable(cooldowns[key], now, minDuration) && parse(key).Some? && parse(key).value.policy == policy;
      assert parse(key).value.shortKey in group;
    }
    if group != map[] {
      var shortKey :| shortKey in group;
    }
  }

  lemma GroupsHold(cooldowns: map<string, Time>, now: Time, minDuration: Time, byPolicy: map<string, map<string, Time>>)
    requires HoldsGroups(byPolicy, policy => Group(cooldowns, now, minDuration, policy))
    ensures HoldsOnly(byPolicy, Groups(cooldowns, now, minDuration)) && HoldsAll(byPolicy, Groups(cooldowns, now, minDuration))
  {
    var groups := Groups(cooldowns, now, minDuration);
    forall policyKey | policyKey in byPolicy
      ensures IsGroup(groups, policyKey, byPolicy[policyKey])
    {
      GroupsAreGroups(cooldowns, now, minDuration, PolicyOf(policyKey).value);
    }
    forall policy | policy in groups
      ensures Pending(byPolicy.Keys, policy)
    {
      GroupsAreGroups(cooldowns, now, minDuration, policy);
    }
  }

  lemma PendingShrinks(pending: set<string>, policy: PolicyId, p: PolicyId)
    requires Pending(pending, policy)
    ensures Pending(pending - {PolicyKey(policy)}, p) <==> Pending(pending, p) && p != policy
  {
    PolicyOfKey(policy);
    if Pending(pending, p) {
      PolicyOfKey(p);
    }
  }

  lemma SyncOneMore(input: SyncInput, pending: set<string>, policy: PolicyId)
    requires Pending(pending, policy) && policy in input.groups
    ensures var rest := pending - {PolicyKey(policy)};
            && (policy in input.StoreBut(pending) <==> policy in input.before)
            && input.StoreBut(rest) == (if input.Writes(policy) then input.StoreBut(pending)[policy := Written(input.groups[policy])]
                                        else input.StoreBut(pending))
            && input.FailuresBut(rest) == input.FailuresBut(pending) + (if input.Fails(policy) then {policy} else {})
  {
    forall p
      ensures Pending(pending - {PolicyKey(policy)}, p) <==> Pending(pending, p) && p != policy
    {
      PendingShrinks(pending, policy, p);
    }
  }

  lemma SyncStart(input: SyncInput, byPolicy: map<string, map<string, Time>>)
    requires HoldsAll(byPolicy, input.groups)
    ensures input.StoreBut(byPolicy.Keys) == input.before && input.FailuresBut(byPolicy.Keys) == {}
  {
  }

  /** One more durable cooldown in the nested map of a sync. */
  function Inserted(byPolicy: map<string, map<string, Time>>, parsed: FullKey, end: Time): map<string, map<string, Time>> {
    var policyKey := PolicyKey(parsed.policy);
    var entries := if policyKey in byPolicy then byPolicy[policyKey] else map[];
    byPolicy[policyKey := entries[parsed.shortKey := end]]
  }

  lemma InsertedGroups(byPolicy: map<string, map<string, Time>>, before: PolicyId -> map<string, Time>,
                       after: PolicyId -> map<string, Time>, parsed: FullKey, end: Time)
    requires HoldsGroups(byPolicy, before) && '/' !in parsed.policy.ns
    requires forall policy :: after(policy) ==
               if policy == parsed.policy then before(policy)[parsed.shortKey := end] else before(policy)
    ensures HoldsGroups(Inserted(byPolicy, parsed, end), after)
  {
    var next := Inserted(byPolicy, parsed, end);
    forall policyKey | policyKey in next
      ensures HoldsGroup(policyKey, next[policyKey], after)
    {
      if policyKey == PolicyKey(parsed.policy) {
        InsertedOwnGroup(byPolicy, before, after, parsed, end);
      } else {
        assert HoldsGroup(policyKey, byPolicy[policyKey], before);
        KeyOfPolicy(policyKey);
      }
    }
    forall policy | after(policy) != map[]
      ensures Pending(next.Keys, policy)
    {
      if policy != parsed.policy {
        assert Pending(byPolicy.Keys, policy);
      }
    }
  }

  lemma InsertedOwnGroup(byPolicy: map<string, map<string, Time>>, before: PolicyId -> map<string, Time>,
                         after: PolicyId -> map<string, Time>, parsed: FullKey, end: Time)
    requires HoldsGroups(byPolicy, before) && '/' !in parsed.policy.ns
    requires after(parsed.policy) == before(parsed.policy)[parsed.shortKey := end]
    ensures var own := PolicyKey(parsed.policy); HoldsGroup(own, Inserted(byPolicy, parsed, end)[own], after)
  {
    var own := PolicyKey(parsed.policy);
    PolicyOfKey(parsed.policy);
    if own in byPolicy {
      assert HoldsGroup(own, byPolicy[own], before);
    } else {
      assert !Pending(byPolicy.Keys, parsed.policy);
    }
    assert parsed.shortKey in Inserted(byPolicy, parsed, end)[own];
  }

  lemma PolicyOfKey(policy: PolicyId)
    requires '/' !in policy.ns
    ensures PolicyOf(PolicyKey(policy)) == Some(policy)
  {
    CutAt(policy.ns, '/', policy.name);
    assert PolicyKey(policy) == policy.ns + ['/'] + policy.name;
  }

  lemma KeyOfPolicy(policyKey: string)
    requires PolicyOf(policyKey).Some?
    ensures PolicyKey(PolicyOf(policyKey).value) == policyKey && '/' !in PolicyOf(policyKey).value.ns
    ensures SplitN(policyKey, '/', 2) == [PolicyOf(policyKey).value.ns, PolicyOf(policyKey).value.name]
  {
    var (ns, name) := Cut(policyKey, '/').value;
    assert SplitN(policyKey, '/', 2) == [ns, name];
  }

  /** The policy that a policy key names. */
  function PolicyOf(policyKey: string): Option<PolicyId> {
    match Cut(policyKey, '/')
    case None => None
    case Some((ns, name)) => Some(PolicyId(ns, name))
  }
}
