/** Cooldowns over whole lives of the controller: admissions, syncs, shutdowns, crashes and restarts. */
module CooldownLifecycle {
  import opened Basics
  import opened CooldownKeys
  import opened CooldownPersistence
  import opened EventGate

  /** What persists for the whole run: the policies, their persistence flags and the minimum duration. */
  datatype Setup = Setup(policies: Policies, minDuration: Time) {
    ghost predicate Valid() {
      ValidPolicies(policies)
    }

    predicate Enabled(policy: PolicyId) {
      policy in policies && PersistenceEnabled(policies[policy])
    }
  }

  datatype Life = Life(gate: Gate, dirty: set<string>, store: Store)

  datatype Action =
    | RateCheck(policy: Policy, shortKey: string, now: Time, dirtyMark: Time)
    | Sync(at: Time, faults: map<PolicyId, Fault>)
    | Stop(at: Time, faults: map<PolicyId, Fault>)
    | Restart(at: Time, loadFaults: LoadFaults, restored: map<string, Time>)

  function Step(setup: Setup, life: Life, a: Action): Life {
    match a
    case RateCheck(policy, shortKey, now, dirtyMark) =>
      var key := MakeFullKey(policy.id, shortKey);
      life.(gate := AfterRateCheck(life.gate, key, LimitsOf(policy), now),
            dirty := if RateVerdict(life.gate, key, LimitsOf(policy), now).Pass?
                     then DirtyAfter(life.dirty, setup.minDuration, policy, key, now, dirtyMark) else life.dirty)
    case Sync(at, faults) =>
      if life.dirty == {} then life else life.(dirty := {}, store := StoreAfter(setup, life, at, faults))
    case Stop(at, faults) =>
      if life.gate.cooldowns == map[] then life else life.(dirty := {}, store := StoreAfter(setup, life, at, faults))
    case Restart(_, _, restored) => JustLoaded(life.store, restored)
  }

  /** A process that has just loaded what it could of the ConfigMaps. */
  function JustLoaded(store: Store, restored: map<string, Time>): Life {
    Life(EMPTY_GATE.(cooldowns := restored), {}, store)
  }

  function StoreAfter(setup: Setup, life: Life, at: Time, faults: map<PolicyId, Fault>): Store {
    InputOf(setup, life, at, faults).After()
  }

  /** The step can happen: the policy exists with that flag, and a restart restores what a load returns. */
  ghost predicate Possible(setup: Setup, life: Life, a: Action) {
    match a
    case RateCheck(policy, shortKey, _, _) =>
      policy.id in setup.policies && setup.policies[policy.id] == policy.persistence && '/' in shortKey
    case Restart(at, loadFaults, restored) => Loaded(setup.policies, Reached(life.store, loadFaults), at, restored)
    case _ => true
  }

  predicate TimedAfter(clock: Time, a: Action) {
    if a.RateCheck? then clock <= a.now <= a.dirtyMark else clock <= a.at
  }

  function LastReading(a: Action): Time {
    if a.RateCheck? then a.dirtyMark else a.at
  }

  /** Every write of the step reaches its ConfigMap. */
  predicate Faultless(a: Action) {
    (a.Sync? || a.Stop?) ==> a.faults == map[]
  }

  ghost predicate ValidRun(setup: Setup, life: Life, clock: Time, actions: seq<Action>)
    decreases |actions|
  {
    |actions| == 0
    || (Possible(setup, life, actions[0]) && TimedAfter(clock, actions[0])
        && ValidRun(setup, Step(setup, life, actions[0]), LastReading(actions[0]), actions[1..]))
  }

  function Run(setup: Setup, life: Life, actions: seq<Action>): Life
    decreases |actions|
  {
    if |actions| == 0 then life else Run(setup, Step(setup, life, actions[0]), actions[1..])
  }

  function EndOfRun(clock: Time, actions: seq<Action>): Time {
    if |actions| == 0 then clock else LastReading(actions[|actions| - 1])
  }

  // ---------------------------------------------------------------- the two invariants

  /** What is stored for the key has expired or is no later than its end in memory. */
  predicate SoundAt(setup: Setup, life: Life, clock: Time, key: string) {
    var stored := StoredEnd(setup.policies, life.store, key);
    stored.Some? ==> stored.value < clock || (key in life.gate.cooldowns && stored.value <= life.gate.cooldowns[key])
  }

  /** A cooldown that a sync would have to store. */
  predicate MustBeStored(setup: Setup, life: Life, clock: Time, key: string) {
    && ParseFullKey(key).Some? && setup.Enabled(ParseFullKey(key).value.policy)
    && key in life.gate.cooldowns && Durable(life.gate.cooldowns[key], clock, setup.minDuration)
  }

  /** A durable cooldown of an enabled policy is dirty or stored as its end truncated to the second. */
  predicate CompleteAt(setup: Setup, life: Life, clock: Time, key: string) {
    MustBeStored(setup, life, clock, key) && key !in life.dirty ==>
      StoredEnd(setup.policies, life.store, key) == Some(Truncated(life.gate.cooldowns[key]))
  }

  predicate WholeSecondAt(setup: Setup, store: Store, key: string) {
    var stored := StoredEnd(setup.policies, store, key);
    stored.Some? ==> Truncated(stored.value) == stored.value
  }

  // ---------------------------------------------------------------- what a sync does to one key

  lemma EntryAfterSync(input: SyncInput, policy: PolicyId, shortKey: string)
    ensures EntryEnd(input.After(), policy, shortKey) ==
              if !input.Writes(policy) then EntryEnd(input.before, policy, shortKey)
              else if shortKey in input.groups[policy] then Some(Truncated(input.groups[policy][shortKey])) else None
  {
    if input.Writes(policy) {
      assert input.After()[policy] == Written(input.groups[policy]);
    }
  }

  /** A group holds exactly the durable cooldowns of valid keys of its policy. */
  lemma GroupHolds(cooldowns: map<string, Time>, at: Time, minDuration: Time, k: FullKey, key: string)
    requires SplitKey(key) == Some(k)
    ensures var group := Group(cooldowns, at, minDuration, k.policy);
            && (k.shortKey in group <==> ParseFullKey(key).Some? && key in cooldowns && Durable(cooldowns[key], at, minDuration))
            && (k.shortKey in group ==> group[k.shortKey] == cooldowns[key])
  {
    SplitThenMake(key);
    ParseThenMake(key);
    MakeThenParse(k);
    if ParseFullKey(key).Some? {
      ParsesAgree(key);
      GroupEntries(cooldowns, at, minDuration, k.policy, k.shortKey);
    } else if k.shortKey in Group(cooldowns, at, minDuration, k.policy) {
      GroupOrigin(cooldowns, at, minDuration, k.policy, k.shortKey);
    }
  }

  function InputOf(setup: Setup, life: Life, at: Time, faults: map<PolicyId, Fault>): SyncInput {
    SyncInput(setup.policies, life.store, Groups(life.gate.cooldowns, at, setup.minDuration), faults)
  }

  lemma EntryOfKeyAfterSync(setup: Setup, life: Life, at: Time, faults: map<PolicyId, Fault>, key: string, k: FullKey)
    requires SplitKey(key) == Some(k) && InputOf(setup, life, at, faults).Writes(k.policy)
    ensures EntryEnd(InputOf(setup, life, at, faults).After(), k.policy, k.shortKey) ==
              if ParseFullKey(key).Some? && key in life.gate.cooldowns && Durable(life.gate.cooldowns[key], at, setup.minDuration)
              then Some(Truncated(life.gate.cooldowns[key])) else None
  {
    GroupHolds(life.gate.cooldowns, at, setup.minDuration, k, key);
    GroupsAreGroups(life.gate.cooldowns, at, setup.minDuration, k.policy);
    EntryAfterSync(InputOf(setup, life, at, faults), k.policy, k.shortKey);
  }

  lemma StoredEndIsEntry(policies: Policies, store: Store, key: string, k: FullKey)
    requires SplitKey(key) == Some(k)
    ensures StoredEnd(policies, store, key) ==
              if k.policy in policies && PersistenceEnabled(policies[k.policy]) then EntryEnd(store, k.policy, k.shortKey) else None
  {
  }

  /** A sync replaces the stored ends of the policies it writes and leaves the others. */
  lemma StoredEndAfterSync(setup: Setup, life: Life, at: Time, faults: map<PolicyId, Fault>, key: string)
    ensures var input := InputOf(setup, life, at, faults);
            var after := StoredEnd(setup.policies, input.After(), key);
            match SplitKey(key)
            case None => after == None
            case Some(k) =>
              if input.Writes(k.policy) then
                after == if ParseFullKey(key).Some? && key in life.gate.cooldowns
                            && Durable(life.gate.cooldowns[key], at, setup.minDuration)
                         then Some(Truncated(life.gate.cooldowns[key])) else None
              else after == StoredEnd(setup.policies, life.store, key)
  {
    if SplitKey(key).Some? {
      var k, input := SplitKey(key).value, InputOf(setup, life, at, faults);
      StoredEndIsEntry(setup.policies, input.After(), key, k);
      StoredEndIsEntry(setup.policies, life.store, key, k);
      if input.Writes(k.policy) {
        EntryOfKeyAfterSync(setup, life, at, faults, key, k);
      } else {
        EntryAfterSync(input, k.policy, k.shortKey);
      }
    }
  }

  /** The two ways of splitting a key agree where both apply. */
  lemma ParsesAgree(key: string)
    requires ParseFullKey(key).Some?
    ensures SplitKey(key) == ParseFullKey(key)
  {
    ParseThenMake(key);
    MakeThenSplit(ParseFullKey(key).value);
  }

  // ---------------------------------------------------------------- soundness

  lemma CheckKeepsSound(setup: Setup, life: Life, a: Action, clock: Time, key: string)
    requires a.RateCheck? && TimedAfter(clock, a) && SoundAt(setup, life, clock, key)
    ensures SoundAt(setup, Step(setup, life, a), LastReading(a), key)
  {
  }

  lemma SyncKeepsSound(setup: Setup, life: Life, at: Time, faults: map<PolicyId, Fault>, clock: Time, key: string)
    requires clock <= at && SoundAt(setup, life, clock, key)
    ensures SoundAt(setup, life.(dirty := {}, store := StoreAfter(setup, life, at, faults)), at, key)
  {
    StoredEndAfterSync(setup, life, at, faults, key);
  }

  /** The load sees what is stored for the key, or that has expired. */
  predicate LoadCovers(setup: Setup, store: Store, at: Time, faults: LoadFaults, key: string) {
    var stored := StoredEnd(setup.policies, store, key);
    !Misses(faults, key) || stored.None? || stored.value < at
  }

  /** A restart leaves a key sound exactly if its load covers that key. */
  lemma RestartKeepsSoundIff(setup: Setup, store: Store, at: Time, faults: LoadFaults, restored: map<string, Time>, key: string)
    requires Loaded(setup.policies, Reached(store, faults), at, restored)
    ensures SoundAt(setup, JustLoaded(store, restored), at, key) <==> LoadCovers(setup, store, at, faults, key)
  {
    ReachedEnd(setup.policies, store, faults, key);
    assert Restored(setup.policies, Reached(store, faults), at, key, restored);
  }

  predicate Covers(setup: Setup, life: Life, a: Action, key: string) {
    a.Restart? ==> LoadCovers(setup, life.store, a.at, a.loadFaults, key)
  }

  lemma StepKeepsSoundIff(setup: Setup, life: Life, a: Action, clock: Time, key: string)
    requires SoundAt(setup, life, clock, key) && Possible(setup, life, a) && TimedAfter(clock, a)
    ensures SoundAt(setup, Step(setup, life, a), LastReading(a), key) <==> Covers(setup, life, a, key)
  {
    match a
    case RateCheck(_, _, _, _) => CheckKeepsSound(setup, life, a, clock, key);
    case Sync(at, faults) => SyncKeepsSound(setup, life, at, faults, clock, key);
    case Stop(at, faults) => SyncKeepsSound(setup, life, at, faults, clock, key);
    case Restart(at, loadFaults, restored) => RestartKeepsSoundIff(setup, life.store, at, loadFaults, restored, key);
  }

  predicate SoundThroughout(setup: Setup, life: Life, clock: Time, actions: seq<Action>, key: string)
    decreases |actions|
  {
    && SoundAt(setup, life, clock, key)
    && (|actions| > 0 ==> SoundThroughout(setup, Step(setup, life, actions[0]), LastReading(actions[0]), actions[1..], key))
  }

  /** Every restart of the run covers the key. */
  predicate LoadsCover(setup: Setup, life: Life, actions: seq<Action>, key: string)
    decreases |actions|
  {
    |actions| > 0 ==> Covers(setup, life, actions[0], key) && LoadsCover(setup, Step(setup, life, actions[0]), actions[1..], key)
  }

  /**
    Over every run of admissions, syncs, failed and conflicting writes, shutdowns and restarts, a key
    stays sound after every step exactly if every restart's load covers it.
   */
  lemma {:induction false} SoundThroughoutIff(setup: Setup, life: Life, clock: Time, actions: seq<Action>, key: string)
    requires SoundAt(setup, life, clock, key) && ValidRun(setup, life, clock, actions)
    ensures SoundThroughout(setup, life, clock, actions, key) <==> LoadsCover(setup, life, actions, key)
    decreases |actions|
  {
    if |actions| > 0 {
      var next := Step(setup, life, actions[0]);
      StepKeepsSoundIff(setup, life, actions[0], clock, key);
      if SoundAt(setup, next, LastReading(actions[0]), key) {
        SoundThroughoutIff(setup, next, LastReading(actions[0]), actions[1..], key);
      }
    }
  }

  lemma EndOfTail(clock: Time, actions: seq<Action>)
    requires |actions| > 0
    ensures EndOfRun(clock, actions) == EndOfRun(LastReading(actions[0]), actions[1..])
  {
  }

  lemma {:induction false} SoundAtEnd(setup: Setup, life: Life, clock: Time, actions: seq<Action>, key: string)
    requires SoundThroughout(setup, life, clock, actions, key)
    ensures SoundAt(setup, Run(setup, life, actions), EndOfRun(clock, actions), key)
    decreases |actions|
  {
    if |actions| > 0 {
      EndOfTail(clock, actions);
      SoundAtEnd(setup, Step(setup, life, actions[0]), LastReading(actions[0]), actions[1..], key);
    }
  }

  /**
    However a run went, if its loads covered the key, a restart at its end, itself complete or not,
    never creates the key's cooldown and never lengthens it.
   */
  lemma RestartNeverLengthens(setup: Setup, store: Store, start: Time, faults: LoadFaults, restored: map<string, Time>,
                              actions: seq<Action>, at: Time, laterFaults: LoadFaults, reloaded: map<string, Time>, key: string)
    requires Loaded(setup.policies, Reached(store, faults), start, restored) && LoadCovers(setup, store, start, faults, key)
    requires ValidRun(setup, JustLoaded(store, restored), start, actions) && LoadsCover(setup, JustLoaded(store, restored), actions, key)
    requires EndOfRun(start, actions) <= at && key in reloaded
    requires Loaded(setup.policies, Reached(Run(setup, JustLoaded(store, restored), actions).store, laterFaults), at, reloaded)
    ensures var cooldowns := Run(setup, JustLoaded(store, restored), actions).gate.cooldowns;
            key in cooldowns && reloaded[key] <= cooldowns[key]
  {
    var first := JustLoaded(store, restored);
    RestartKeepsSoundIff(setup, store, start, faults, restored, key);
    SoundThroughoutIff(setup, first, start, actions, key);
    SoundAtEnd(setup, first, start, actions, key);
    var end := Run(setup, first, actions);
    ReachedEnd(setup.policies, end.store, laterFaults, key);
    assert Restored(setup.policies, Reached(end.store, laterFaults), at, key, reloaded);
  }

  /**
    A load that misses an unexpired stored end forgets the cooldown, and the next good restart brings
    it back: a cooldown appears that was not in memory.
   */
  lemma MissedLoadCreatesCooldown() returns (setup: Setup, store: Store, reloaded: map<string, Time>, key: string)
    ensures setup.Valid()
    ensures Loaded(setup.policies, Reached(store, LoadFaults(true, {})), 0, map[])
    ensures Loaded(setup.policies, Reached(store, LoadFaults(false, {})), 0, reloaded)
    ensures key in reloaded && key !in JustLoaded(store, map[]).gate.cooldowns
  {
    var k := FullKey(PolicyId("n", "p"), "o/x");
    setup := Setup(map[k.policy := None], MINUTE);
    store := map[k.policy := ConfigMap(Some(CURRENT_VERSION), Some(map[k.shortKey := At(HOUR)]))];
    key := MakeFullKey(k.policy, k.shortKey);
    reloaded := map[key := HOUR];
    MakeThenSplit(k);
    forall other
      ensures Restored(setup.policies, Reached(store, LoadFaults(true, {})), 0, other, map[])
      ensures Restored(setup.policies, Reached(store, LoadFaults(false, {})), 0, other, reloaded)
    {
      OnlyEntry(setup.policies, store, k, HOUR, other);
      ReachedEnd(setup.policies, store, LoadFaults(true, {}), other);
      ReachedEnd(setup.policies, store, LoadFaults(false, {}), other);
    }
  }

  /** A single stored entry is the stored end of a single key. */
  lemma OnlyEntry(policies: Policies, store: Store, k: FullKey, end: Time, key: string)
    requires ValidPolicyId(k.policy) && policies == map[k.policy := None]
    requires store == map[k.policy := ConfigMap(Some(CURRENT_VERSION), Some(map[k.shortKey := At(end)]))]
    ensures StoredEnd(policies, store, key) == if key == MakeFullKey(k.policy, k.shortKey) then Some(end) else None
  {
    MakeThenSplit(k);
    SplitThenMake(key);
  }

  // ---------------------------------------------------------------- completeness

  lemma CheckKeepsComplete(setup: Setup, life: Life, a: Action, clock: Time, key: string)
    requires a.RateCheck? && Possible(setup, life, a) && setup.Valid() && TimedAfter(clock, a) && CompleteAt(setup, life, clock, key)
    ensures CompleteAt(setup, Step(setup, life, a), LastReading(a), key)
  {
    MakeThenParse(FullKey(a.policy.id, a.shortKey));
  }

  /** The write of the key's policy goes through. */
  predicate WriteReaches(life: Life, faults: map<PolicyId, Fault>, policy: PolicyId) {
    WriteSucceeds(policy in life.store, if policy in faults then Some(faults[policy]) else None)
  }

  /** The truncated end is what the ConfigMap holds for the key. */
  predicate UpToDate(setup: Setup, life: Life, key: string)
    requires key in life.gate.cooldowns
  {
    StoredEnd(setup.policies, life.store, key) == Some(Truncated(life.gate.cooldowns[key]))
  }

  lemma DurableEndAfterSync(setup: Setup, life: Life, at: Time, faults: map<PolicyId, Fault>, key: string)
    requires MustBeStored(setup, life, at, key)
    ensures StoredEnd(setup.policies, StoreAfter(setup, life, at, faults), key) ==
              if WriteReaches(life, faults, ParseFullKey(key).value.policy) then Some(Truncated(life.gate.cooldowns[key]))
              else StoredEnd(setup.policies, life.store, key)
  {
    var k := ParseFullKey(key).value;
    ParsesAgree(key);
    ParseThenMake(key);
    StoredEndAfterSync(setup, life, at, faults, key);
    GroupsAreGroups(life.gate.cooldowns, at, setup.minDuration, k.policy);
    GroupEntries(life.gate.cooldowns, at, setup.minDuration, k.policy, k.shortKey);
  }

  /** A write at `at` leaves the key complete: it goes through, it is not needed, or it would change nothing. */
  predicate WriteCovers(setup: Setup, life: Life, at: Time, faults: map<PolicyId, Fault>, key: string) {
    MustBeStored(setup, life, at, key) ==>
      WriteReaches(life, faults, ParseFullKey(key).value.policy) || UpToDate(setup, life, key)
  }

  lemma SyncKeepsCompleteIff(setup: Setup, life: Life, at: Time, faults: map<PolicyId, Fault>, key: string)
    ensures CompleteAt(setup, life.(dirty := {}, store := StoreAfter(setup, life, at, faults)), at, key)
            <==> WriteCovers(setup, life, at, faults, key)
  {
    if MustBeStored(setup, life, at, key) {
      DurableEndAfterSync(setup, life, at, faults, key);
    }
  }

  /** Nothing becomes durable as time passes. */
  lemma WaitingKeepsComplete(setup: Setup, life: Life, clock: Time, at: Time, key: string)
    requires CompleteAt(setup, life, clock, key) && clock <= at
    ensures CompleteAt(setup, life, at, key)
  {
  }

  lemma RestartKeepsComplete(setup: Setup, store: Store, at: Time, faults: LoadFaults, restored: map<string, Time>, key: string)
    requires Loaded(setup.policies, Reached(store, faults), at, restored) && WholeSecondAt(setup, store, key)
    ensures CompleteAt(setup, JustLoaded(store, restored), at, key)
  {
    ReachedEnd(setup.policies, store, faults, key);
    assert Restored(setup.policies, Reached(store, faults), at, key, restored);
  }

  /** A sync or stop that clears the dirty marks covers the key. */
  predicate Writes(setup: Setup, life: Life, a: Action, key: string) {
    match a
    case Sync(at, faults) => life.dirty != {} ==> WriteCovers(setup, life, at, faults, key)
    case Stop(at, faults) => life.gate.cooldowns != map[] ==> WriteCovers(setup, life, at, faults, key)
    case _ => true
  }

  lemma StepKeepsCompleteIff(setup: Setup, life: Life, a: Action, clock: Time, key: string)
    requires setup.Valid() && CompleteAt(setup, life, clock, key) && WholeSecondAt(setup, life.store, key)
    requires Possible(setup, life, a) && TimedAfter(clock, a)
    ensures CompleteAt(setup, Step(setup, life, a), LastReading(a), key) <==> Writes(setup, life, a, key)
  {
    match a
    case RateCheck(_, _, _, _) => CheckKeepsComplete(setup, life, a, clock, key);
    case Sync(at, faults) =>
      SyncKeepsCompleteIff(setup, life, at, faults, key);
      WaitingKeepsComplete(setup, life, clock, at, key);
    case Stop(at, faults) =>
      SyncKeepsCompleteIff(setup, life, at, faults, key);
      WaitingKeepsComplete(setup, life, clock, at, key);
    case Restart(at, loadFaults, restored) => RestartKeepsComplete(setup, life.store, at, loadFaults, restored, key);
  }

  lemma TruncatedTwice(t: Time)
    ensures Truncated(Truncated(t)) == Truncated(t)
  {
  }

  lemma SyncKeepsWholeSecond(setup: Setup, life: Life, at: Time, faults: map<PolicyId, Fault>, key: string)
    requires WholeSecondAt(setup, life.store, key)
    ensures WholeSecondAt(setup, StoreAfter(setup, life, at, faults), key)
  {
    StoredEndAfterSync(setup, life, at, faults, key);
    if key in life.gate.cooldowns {
      TruncatedTwice(life.gate.cooldowns[key]);
    }
  }

  lemma StepKeepsWholeSecond(setup: Setup, life: Life, a: Action, key: string)
    requires WholeSecondAt(setup, life.store, key)
    ensures WholeSecondAt(setup, Step(setup, life, a).store, key)
  {
    if a.Sync? || a.Stop? {
      SyncKeepsWholeSecond(setup, life, a.at, a.faults, key);
    }
  }

  predicate CompleteThroughout(setup: Setup, life: Life, clock: Time, actions: seq<Action>, key: string)
    decreases |actions|
  {
    && CompleteAt(setup, life, clock, key)
    && (|actions| > 0 ==> CompleteThroughout(setup, Step(setup, life, actions[0]), LastReading(actions[0]), actions[1..], key))
  }

  /** Every write of the run covers the key. */
  predicate WritesCover(setup: Setup, life: Life, actions: seq<Action>, key: string)
    decreases |actions|
  {
    |actions| > 0 ==> Writes(setup, life, actions[0], key) && WritesCover(setup, Step(setup, life, actions[0]), actions[1..], key)
  }

  /**
    Over every run, failed writes and loads included: after every step a durable cooldown is dirty or
    stored as its end truncated to the second, exactly if every sync and stop that clears the dirty
    marks reaches the key's ConfigMap, finds the end there already, or finds the cooldown not durable.
   */
  lemma {:induction false} CompleteThroughoutIff(setup: Setup, life: Life, clock: Time, actions: seq<Action>, key: string)
    requires setup.Valid() && CompleteAt(setup, life, clock, key) && WholeSecondAt(setup, life.store, key)
    requires ValidRun(setup, life, clock, actions)
    ensures CompleteThroughout(setup, life, clock, actions, key) <==> WritesCover(setup, life, actions, key)
    decreases |actions|
  {
    if |actions| > 0 {
      var next := Step(setup, life, actions[0]);
      StepKeepsCompleteIff(setup, life, actions[0], clock, key);
      StepKeepsWholeSecond(setup, life, actions[0], key);
      if CompleteAt(setup, next, LastReading(actions[0]), key) {
        CompleteThroughoutIff(setup, next, LastReading(actions[0]), actions[1..], key);
      }
    }
  }

  lemma {:induction false} CompleteAtEnd(setup: Setup, life: Life, clock: Time, actions: seq<Action>, key: string)
    requires CompleteThroughout(setup, life, clock, actions, key)
    ensures CompleteAt(setup, Run(setup, life, actions), EndOfRun(clock, actions), key)
    decreases |actions|
  {
    if |actions| > 0 {
      EndOfTail(clock, actions);
      CompleteAtEnd(setup, Step(setup, life, actions[0]), LastReading(actions[0]), actions[1..], key);
    }
  }

  lemma {:induction false} FaultlessWritesCover(setup: Setup, life: Life, actions: seq<Action>, key: string)
    requires forall a | a in actions :: Faultless(a)
    ensures WritesCover(setup, life, actions, key)
    decreases |actions|
  {
    if |actions| > 0 {
      assert Faultless(actions[0]) && forall a | a in actions[1..] :: a in actions;
      FaultlessWritesCover(setup, Step(setup, life, actions[0]), actions[1..], key);
    }
  }

  /**
    Over every run whose writes all reach their ConfigMaps, whatever its loads missed: a durable
    cooldown of an enabled policy is dirty or stored as its end truncated to the second.
   */
  lemma CompleteOverRun(setup: Setup, life: Life, clock: Time, actions: seq<Action>, key: string)
    requires setup.Valid() && CompleteAt(setup, life, clock, key) && WholeSecondAt(setup, life.store, key)
    requires ValidRun(setup, life, clock, actions) && forall a | a in actions :: Faultless(a)
    ensures CompleteAt(setup, Run(setup, life, actions), EndOfRun(clock, actions), key)
  {
    FaultlessWritesCover(setup, life, actions, key);
    CompleteThroughoutIff(setup, life, clock, actions, key);
    CompleteAtEnd(setup, life, clock, actions, key);
  }

  /**
    In a run whose writes cover the key, a crash followed by a load that sees the key's ConfigMap
    loses less than one second of a durable cooldown that is not waiting for its first sync.
   */
  lemma CrashKeepsCooldown(setup: Setup, store: Store, start: Time, faults: LoadFaults, restored: map<string, Time>,
                           actions: seq<Action>, at: Time, laterFaults: LoadFaults, reloaded: map<string, Time>, key: string)
    requires setup.Valid() && WholeSecondAt(setup, store, key) && Loaded(setup.policies, Reached(store, faults), start, restored)
    requires ValidRun(setup, JustLoaded(store, restored), start, actions) && WritesCover(setup, JustLoaded(store, restored), actions, key)
    requires var end := Run(setup, JustLoaded(store, restored), actions);
             && MustBeStored(setup, end, EndOfRun(start, actions), key) && key !in end.dirty
             && at <= Truncated(end.gate.cooldowns[key])
             && Loaded(setup.policies, Reached(end.store, laterFaults), at, reloaded) && !Misses(laterFaults, key)
    ensures var end := Run(setup, JustLoaded(store, restored), actions).gate.cooldowns[key];
            key in reloaded && reloaded[key] == Truncated(end) && end - SECOND < reloaded[key] <= end
  {
    var first := JustLoaded(store, restored);
    RestartKeepsComplete(setup, store, start, faults, restored, key);
    CompleteThroughoutIff(setup, first, start, actions, key);
    CompleteAtEnd(setup, first, start, actions, key);
    var end := Run(setup, first, actions);
    ReachedEnd(setup.policies, end.store, laterFaults, key);
    assert Restored(setup.policies, Reached(end.store, laterFaults), at, key, reloaded);
  }

  /** An orderly stop stores every durable cooldown of an enabled policy, whatever was dirty. */
  lemma StopStoresEverything(setup: Setup, life: Life, at: Time, key: string)
    requires MustBeStored(setup, life, at, key)
    ensures var after := Step(setup, life, Stop(at, map[]));
            StoredEnd(setup.policies, after.store, key) == Some(Truncated(life.gate.cooldowns[key]))
  {
    StopWrites(setup, life, at, key);
    DurableEndAfterSync(setup, life, at, map[], key);
  }

  lemma StopWrites(setup: Setup, life: Life, at: Time, key: string)
    requires key in life.gate.cooldowns
    ensures Step(setup, life, Stop(at, map[])) == life.(dirty := {}, store := StoreAfter(setup, life, at, map[]))
  {
  }

  // ---------------------------------------------------------------- the settings and the stored text, field by field

  /** The policy exists and does not turn persistence off. */
  predicate Keeps(policies: Policies, policy: PolicyId) {
    policy in policies && (policies[policy] == None || policies[policy] == Some(None) || policies[policy] == Some(Some(true)))
  }

  predicate TurnedOff(policies: Policies, policy: PolicyId) {
    policy in policies && policies[policy] == Some(Some(false))
  }

  predicate NamesKey(k: FullKey, key: string) {
    key == k.policy.ns + "/" + (k.policy.name + "/" + k.shortKey) && '/' !in k.policy.ns && '/' !in k.policy.name && '/' in k.shortKey
  }

  predicate Holds(store: Store, k: FullKey, t: Time) {
    && k.policy in store && (store[k.policy].version == None || store[k.policy].version == Some("1"))
    && store[k.policy].cooldowns.Some? && k.shortKey in store[k.policy].cooldowns.value
    && store[k.policy].cooldowns.value[k.shortKey] == At(t)
  }

  lemma WrittenHolds(setup: Setup, life: Life, at: Time, faults: map<PolicyId, Fault>, k: FullKey, key: string)
    requires NamesKey(k, key) && Keeps(setup.policies, k.policy) && k.policy !in faults
    requires key in life.gate.cooldowns && life.gate.cooldowns[key] >= at && life.gate.cooldowns[key] - at >= setup.minDuration
    ensures Holds(StoreAfter(setup, life, at, faults), k, Truncated(life.gate.cooldowns[key]))
  {
    assert key == MakeFullKey(k.policy, k.shortKey);
    GroupsAreGroups(life.gate.cooldowns, at, setup.minDuration, k.policy);
    GroupEntries(life.gate.cooldowns, at, setup.minDuration, k.policy, k.shortKey);
    var input := InputOf(setup, life, at, faults);
    assert input.Writes(k.policy) && input.After()[k.policy] == Written(input.groups[k.policy]);
  }

  /**
    Unless its policy turns persistence off, a cooldown with the minimum duration left is stored by a
    sync with anything dirty, and by any stop: as the whole second that it ends in.
   */
  lemma DurableIsHeld(setup: Setup, life: Life, a: Action, k: FullKey, key: string) returns (t: Time)
    requires a.Stop? || (a.Sync? && life.dirty != {})
    requires NamesKey(k, key) && Keeps(setup.policies, k.policy) && k.policy !in a.faults
    requires key in life.gate.cooldowns && life.gate.cooldowns[key] >= a.at && life.gate.cooldowns[key] - a.at >= setup.minDuration
    ensures Holds(Step(setup, life, a).store, k, t)
    ensures t % 1_000_000_000 == 0 && t <= life.gate.cooldowns[key] < t + 1_000_000_000
  {
    t := Truncated(life.gate.cooldowns[key]);
    WholeSecond(life.gate.cooldowns[key]);
    WrittenHolds(setup, life, a.at, a.faults, k, key);
    ClearingWrites(setup, life, a, key);
  }

  lemma WholeSecond(end: Time)
    ensures Truncated(end) % 1_000_000_000 == 0 && Truncated(end) <= end < Truncated(end) + 1_000_000_000
  {
  }

  lemma ClearingWrites(setup: Setup, life: Life, a: Action, key: string)
    requires (a.Stop? && key in life.gate.cooldowns) || (a.Sync? && life.dirty != {})
    ensures Step(setup, life, a).store == StoreAfter(setup, life, a.at, a.faults)
  {
  }

  /**
    A load restores a key exactly if its policy does not turn persistence off and its ConfigMap could
    be read, has no other version and holds an end that has not passed; it restores that end.
   */
  lemma HeldIsRestored(policies: Policies, store: Store, faults: LoadFaults, now: Time, restored: map<string, Time>, k: FullKey, key: string,
                       t: Time)
    requires NamesKey(k, key) && Loaded(policies, Reached(store, faults), now, restored)
    ensures key in restored && restored[key] == t <==>
              !faults.listFails && k.policy !in faults.unreadable && Keeps(policies, k.policy) && Holds(store, k, t) && t >= now
  {
    assert key == MakeFullKey(k.policy, k.shortKey);
    MakeThenSplit(k);
    assert Restored(policies, Reached(store, faults), now, key, restored);
    ReachedEnd(policies, store, faults, key);
    HeldIsStoredEnd(policies, store, k, key, t);
  }

  lemma HeldIsStoredEnd(policies: Policies, store: Store, k: FullKey, key: string, t: Time)
    requires SplitKey(key) == Some(k)
    ensures StoredEnd(policies, store, key) == Some(t) <==> Keeps(policies, k.policy) && Holds(store, k, t)
  {
    HeldIsEntryEnd(store, k, t);
    if k.policy in policies {
      KeepsIffEnabled(policies, k.policy);
    }
  }

  lemma KeepsIffEnabled(policies: Policies, policy: PolicyId)
    requires policy in policies
    ensures Keeps(policies, policy) <==> PersistenceEnabled(policies[policy])
  {
    match policies[policy]
    case None =>
    case Some(None) =>
    case Some(Some(enabled)) =>
      assert enabled <==> policies[policy] == Some(Some(true));
  }

  lemma HeldIsEntryEnd(store: Store, k: FullKey, t: Time)
    ensures EntryEnd(store, k.policy, k.shortKey) == Some(t) <==> Holds(store, k, t)
  {
    if k.policy in store && store[k.policy].version.Some? {
      assert store[k.policy].version == Some("1") <==> store[k.policy].version.value == CURRENT_VERSION;
    }
  }

  /** No step touches the ConfigMap of a policy that turns persistence off, marks its keys or restores one of them. */
  lemma TurnedOffIsLeftAlone(setup: Setup, life: Life, a: Action, k: FullKey, key: string)
    requires Possible(setup, life, a) && NamesKey(k, key) && TurnedOff(setup.policies, k.policy)
    ensures var next := Step(setup, life, a);
            && (k.policy in next.store <==> k.policy in life.store)
            && (k.policy in life.store ==> next.store[k.policy] == life.store[k.policy])
    ensures a.RateCheck? && a.policy.id == k.policy ==> Step(setup, life, a).dirty == life.dirty
    ensures a.Restart? ==> key !in Step(setup, life, a).gate.cooldowns
  {
    if a.Restart? {
      assert key == MakeFullKey(k.policy, k.shortKey);
      MakeThenSplit(k);
      assert Restored(setup.policies, Reached(life.store, a.loadFaults), a.at, key, a.restored);
    }
  }

  /** An admission marks its key exactly if it sets a cooldown that is to be kept and has the minimum duration left. */
  lemma AdmissionMarks(setup: Setup, life: Life, a: Action, k: FullKey, key: string)
    requires a.RateCheck? && Possible(setup, life, a) && k == FullKey(a.policy.id, a.shortKey) && NamesKey(k, key)
    requires RateVerdict(life.gate, key, Limits(a.policy.eventsPerMinute, a.policy.cooldownMinutes), a.now).Pass?
    ensures key in Step(setup, life, a).dirty <==>
              key in life.dirty
              || (a.policy.eventsPerMinute > 0 && a.policy.cooldownMinutes > 0 && Keeps(setup.policies, k.policy)
                  && a.now + a.policy.cooldownMinutes * 60_000_000_000 - a.dirtyMark >= setup.minDuration)
  {
    assert key == MakeFullKey(k.policy, k.shortKey);
    assert LimitsOf(a.policy) == Limits(a.policy.eventsPerMinute, a.policy.cooldownMinutes);
    KeepsIffEnabled(setup.policies, k.policy);
    var span := a.policy.cooldownMinutes * MINUTE;
    assert span == a.policy.cooldownMinutes * 60_000_000_000;
  }

  /** From admission to stored text: any policy with both settings and without `persistence`, one event, one sync. */
  lemma AdmittedIsHeld(setup: Setup, policy: Policy, shortKey: string, at: Time, later: Time, end: Time)
    requires setup.policies == map[policy.id := None] && policy.persistence == None && '/' in shortKey && ValidPolicyId(policy.id)
    requires policy.eventsPerMinute > 0 && policy.cooldownMinutes > 0 && at % SECOND == 0
    requires end == at + policy.cooldownMinutes * MINUTE && at <= later <= end && end - later >= setup.minDuration
    ensures ValidRun(setup, JustLoaded(map[], map[]), at, [RateCheck(policy, shortKey, at, at), Sync(later, map[])])
    ensures var actions := [RateCheck(policy, shortKey, at, at), Sync(later, map[])];
            Holds(Run(setup, JustLoaded(map[], map[]), actions).store, FullKey(policy.id, shortKey), end)
  {
    var check, sync, start := RateCheck(policy, shortKey, at, at), Sync(later, map[]), JustLoaded(map[], map[]);
    FirstCheckPasses(setup, policy, shortKey, at);
    WholeEnd(at, policy.cooldownMinutes);
    var next := Step(setup, start, check);
    EndIsHeld(setup, next, sync, FullKey(policy.id, shortKey), MakeFullKey(policy.id, shortKey), end);
    TwoSteps(setup, start, at, check, sync);
  }

  lemma EndIsHeld(setup: Setup, life: Life, a: Action, k: FullKey, key: string, end: Time)
    requires a.Sync? && life.dirty != {} && k.policy !in a.faults && NamesKey(k, key) && Keeps(setup.policies, k.policy)
    requires key in life.gate.cooldowns && life.gate.cooldowns[key] == end
    requires end >= a.at && end - a.at >= setup.minDuration && end % SECOND == 0
    ensures Holds(Step(setup, life, a).store, k, end)
  {
    WrittenHolds(setup, life, a.at, a.faults, k, key);
    ClearingWrites(setup, life, a, key);
    SecondIsWhole(end);
  }

  lemma SecondIsWhole(end: Time)
    requires end % SECOND == 0
    ensures Truncated(end) == end
  {
  }

  lemma WholeEnd(at: Time, minutes: int)
    requires at % SECOND == 0
    ensures (at + minutes * MINUTE) % SECOND == 0
  {
    assert minutes * MINUTE == 60 * minutes * SECOND;
  }

  lemma TwoSteps(setup: Setup, life: Life, clock: Time, a: Action, b: Action)
    requires Possible(setup, life, a) && TimedAfter(clock, a) && Possible(setup, Step(setup, life, a), b) && TimedAfter(LastReading(a), b)
    ensures ValidRun(setup, life, clock, [a, b]) && Run(setup, life, [a, b]) == Step(setup, Step(setup, life, a), b)
  {
    var next := Step(setup, life, a);
    assert [a, b][1..] == [b] && [b][1..] == [];
    assert ValidRun(setup, Step(setup, next, b), LastReading(b), []) && Run(setup, next, [b]) == Step(setup, next, b);
  }

  lemma FirstCheckPasses(setup: Setup, policy: Policy, shortKey: string, at: Time)
    requires policy.persistence == None && policy.eventsPerMinute > 0 && policy.cooldownMinutes > 0
    requires policy.cooldownMinutes * MINUTE >= setup.minDuration
    ensures var next, key := Step(setup, JustLoaded(map[], map[]), RateCheck(policy, shortKey, at, at)), MakeFullKey(policy.id, shortKey);
            key in next.dirty && next.gate.cooldowns == map[key := at + policy.cooldownMinutes * MINUTE]
  {
    assert Recent([], at) == [];
  }

  // ---------------------------------------------------------------- failed writes

  /** Two syncs in a row. */
  function SyncedTwice(setup: Setup, life: Life, at: Time, faults: map<PolicyId, Fault>, later: Time, laterFaults: map<PolicyId, Fault>): Life {
    Step(setup, Step(setup, life, Sync(at, faults)), Sync(later, laterFaults))
  }

  /** A sync clears the dirty marks, so the one after it writes nothing. */
  lemma SecondSyncIsIdle(setup: Setup, life: Life, at: Time, faults: map<PolicyId, Fault>, later: Time, laterFaults: map<PolicyId, Fault>)
    requires life.dirty != {}
    ensures SyncedTwice(setup, life, at, faults, later, laterFaults) == life.(dirty := {}, store := StoreAfter(setup, life, at, faults))
  {
  }

  /**
    A sync whose write fails or conflicts still clears the dirty marks, so the next sync repeats
    nothing: the cooldown is up to date after both exactly if the first write went through or the
    ConfigMap already held it.
   */
  lemma FailedWriteIsNotRetried(setup: Setup, life: Life, at: Time, faults: map<PolicyId, Fault>, later: Time,
                                laterFaults: map<PolicyId, Fault>, key: string)
    requires MustBeStored(setup, life, at, key) && life.dirty != {}
    ensures UpToDate(setup, SyncedTwice(setup, life, at, faults, later, laterFaults), key)
            <==> WriteReaches(life, faults, ParseFullKey(key).value.policy) || UpToDate(setup, life, key)
  {
    SecondSyncIsIdle(setup, life, at, faults, later, laterFaults);
    DurableEndAfterSync(setup, life, at, faults, key);
  }

  /** One dirty cooldown, an empty ConfigMap, and a conflicting update: after two syncs nothing is stored. */
  lemma ConflictLosesCooldown() returns (setup: Setup, life: Life, faults: map<PolicyId, Fault>, key: string)
    ensures setup.Valid() && MustBeStored(setup, life, 0, key) && life.dirty == {key}
    ensures var policy := ParseFullKey(key).value.policy; policy in life.store && faults == map[policy := UpdateConflicts]
    ensures StoredEnd(setup.policies, SyncedTwice(setup, life, 0, faults, MINUTE, map[]).store, key) == None
  {
    var k := FullKey(PolicyId("n", "p"), "o/x");
    setup := Setup(map[k.policy := None], MINUTE);
    key := MakeFullKey(k.policy, k.shortKey);
    life := Life(EMPTY_GATE.(cooldowns := map[key := HOUR]), {key}, map[k.policy := ConfigMap(Some(CURRENT_VERSION), Some(map[]))]);
    faults := map[k.policy := UpdateConflicts];
    MakeThenParse(k);
    NothingStored(setup.policies, life.store, k.policy, key);
    SecondSyncIsIdle(setup, life, 0, faults, MINUTE, map[]);
    DurableEndAfterSync(setup, life, 0, faults, key);
  }

  lemma NothingStored(policies: Policies, store: Store, policy: PolicyId, key: string)
    requires store == map[policy := ConfigMap(Some(CURRENT_VERSION), Some(map[]))]
    ensures StoredEnd(policies, store, key) == None
  {
  }
}
