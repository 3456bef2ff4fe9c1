/** The remediation gate: which events reach remediation, and when. */
module EventGate {
  import opened Basics
  import opened CooldownKeys
  import CP = CooldownPersistence

  const OBJECT_COOLDOWN: Time := 5 * MINUTE
  const PROCESSED_EVENT_AGE: Time := 10 * MINUTE

  // ---------------------------------------------------------------- policies and events

  /** An empty field matches everything. */
  datatype Selector = Selector(eventType: string, reason: string, kind: string, ns: string, message: string)

  datatype Policy = Policy(id: PolicyId, selectors: seq<Selector>, eventsPerMinute: int, cooldownMinutes: int,
                           persistence: CP.PersistenceSpec)

  /** `accepted` holds the message patterns that the regular expression engine finds in the message. */
  datatype Event = Event(ns: string, name: string, resourceVersion: string, eventType: string, reason: string,
                         accepted: set<string>, involved: ObjectRef, lastTimestamp: Option<Time>, eventTime: Option<Time>)

  function EventKey(event: Event): string {
    event.ns + "/" + event.name + "/" + event.resourceVersion
  }

  predicate MatchesSelector(event: Event, selector: Selector) {
    && (selector.eventType != "" ==> event.eventType == selector.eventType)
    && (selector.reason != "" ==> event.reason == selector.reason)
    && (selector.kind != "" ==> event.involved.kind == selector.kind)
    && (selector.ns != "" ==> event.ns == selector.ns)
    && (selector.message != "" ==> selector.message in event.accepted)
  }

  /** The position of the first element that satisfies a condition. */
  function FirstWhere<T>(xs: seq<T>, holds: T -> bool): (first: Option<nat>)
    ensures first.None? <==> forall i | 0 <= i < |xs| :: !holds(xs[i])
    ensures first.Some? ==> first.value < |xs| && holds(xs[first.value]) && forall i | 0 <= i < first.value :: !holds(xs[i])
  {
    if |xs| == 0 then None
    else
      var last := |xs| - 1;
      var earlier := FirstWhere(xs[..last], holds);
      if earlier.Some? then earlier else if holds(xs[last]) then Some(last) else None
  }

  /** The first selector that matches; its settings apply to the remediation. */
  function FirstSelector(event: Event, selectors: seq<Selector>): (first: Option<nat>)
    ensures first.None? <==> forall i | 0 <= i < |selectors| :: !MatchesSelector(event, selectors[i])
    ensures first.Some? ==>
              && first.value < |selectors| && MatchesSelector(event, selectors[first.value])
              && forall i | 0 <= i < first.value :: !MatchesSelector(event, selectors[i])
  {
    FirstWhere(selectors, selector => MatchesSelector(event, selector))
  }

  predicate MatchesPolicy(event: Event, policy: Policy) {
    FirstSelector(event, policy.selectors).Some?
  }

  /** The event happened before the controller started. */
  predicate Historical(startup: Option<Time>, event: Event) {
    var time := if event.lastTimestamp.None? then event.eventTime else event.lastTimestamp;
    startup.Some? && time.Some? && time.value < startup.value
  }

  // ---------------------------------------------------------------- one consultation of the gate

  /** The tracking maps; an absent map and an empty one behave alike. */
  datatype Gate = Gate(processed: map<string, Time>, window: map<string, seq<Time>>, cooldowns: map<string, Time>,
                       objects: map<string, Time>)

  const EMPTY_GATE := Gate(map[], map[], map[], map[])

  /** The rate-limit settings of a policy. */
  datatype Limits = Limits(eventsPerMinute: int, cooldownMinutes: int) {
    predicate Unlimited() {
      eventsPerMinute == 0 && cooldownMinutes == 0
    }
  }

  datatype Verdict = Pass | ObjectCooldown | PolicyCooldown | WindowFull

  predicate BlockedUntil(ends: map<string, Time>, key: string, now: Time) {
    key in ends && now < ends[key]
  }

  function Recent(times: seq<Time>, now: Time): seq<Time> {
    if |times| == 0 then []
    else if times[0] > now - MINUTE then [times[0]] + Recent(times[1..], now)
    else Recent(times[1..], now)
  }

  function Times(window: map<string, seq<Time>>, key: string): seq<Time> {
    if key in window then window[key] else []
  }

  function RateVerdict(gate: Gate, key: string, limits: Limits, now: Time): Verdict {
    if limits.Unlimited() then Pass
    else if BlockedUntil(gate.cooldowns, key, now) then PolicyCooldown
    else if limits.eventsPerMinute > 0 && |Recent(Times(gate.window, key), now)| >= limits.eventsPerMinute then WindowFull
    else Pass
  }

  /** The gate after the rate limiter let an event pass. */
  function RateAdmitted(gate: Gate, key: string, limits: Limits, now: Time): Gate {
    if limits.eventsPerMinute <= 0 then gate
    else
      var counted := gate.(window := gate.window[key := Recent(Times(gate.window, key), now) + [now]]);
      if limits.cooldownMinutes <= 0 then counted
      else counted.(cooldowns := gate.cooldowns[key := now + limits.cooldownMinutes * MINUTE])
  }

  function AfterRateCheck(gate: Gate, key: string, limits: Limits, now: Time): Gate {
    if RateVerdict(gate, key, limits, now).Pass? then RateAdmitted(gate, key, limits, now) else gate
  }

  /** Whether letting an event pass sets a policy cooldown. */
  predicate SetsCooldown(limits: Limits) {
    limits.eventsPerMinute > 0 && limits.cooldownMinutes > 0
  }

  // ---------------------------------------------------------------- one reconcile of an event

  /** The clock readings of one reconcile, in the order the code takes them. */
  datatype Readings = Readings(objectCheck: Time, rateCheck: Time, dirtyMark: Time, processedMark: Time, objectMark: Time) {
    predicate Ordered() {
      objectCheck <= rateCheck <= dirtyMark <= processedMark <= objectMark
    }
  }

  /** What one reconcile of an event gets to see besides the gate. */
  datatype Surroundings = Surroundings(involvedExists: bool, policies: Option<seq<Policy>>, cluster: Cluster, processingFails: bool)

  datatype Outcome =
    | Ignored(reason: Ignorance)
    | Blocked(policy: nat, key: string, verdict: Verdict)
    | Processed(policy: nat, selector: Option<nat>, key: string, failed: bool)

  datatype Ignorance = IsHistorical | ObjectGone | AlreadyProcessed | PoliciesUnavailable | NoPolicies | NoMatch

  function KeyFor(event: Event, policy: Policy, cluster: Cluster): string {
    RateLimitKey(cluster, policy.id.ns, policy.id.name, event.involved)
  }

  function LimitsOf(policy: Policy): Limits {
    Limits(policy.eventsPerMinute, policy.cooldownMinutes)
  }

  /** The index of the first policy that matches the event. */
  function FirstMatch(event: Event, policies: seq<Policy>): (first: Option<nat>)
    ensures first.None? <==> forall i | 0 <= i < |policies| :: !MatchesPolicy(event, policies[i])
    ensures first.Some? ==>
              && first.value < |policies| && MatchesPolicy(event, policies[first.value])
              && forall i | 0 <= i < first.value :: !MatchesPolicy(event, policies[i])
  {
    FirstWhere(policies, policy => MatchesPolicy(event, policy))
  }

  lemma FirstMatchIs(event: Event, policies: seq<Policy>, first: Option<nat>)
    requires match first
             case None => forall i | 0 <= i < |policies| :: !MatchesPolicy(event, policies[i])
             case Some(i) => i < |policies| && MatchesPolicy(event, policies[i]) && forall j | 0 <= j < i :: !MatchesPolicy(event, policies[j])
    ensures FirstMatch(event, policies) == first
  {
  }

  /** Why an event is ignored before any policy is looked at. */
  function IgnoredAtOnce(processed: map<string, Time>, startup: Option<Time>, event: Event, s: Surroundings): Option<Ignorance> {
    if Historical(startup, event) then Some(IsHistorical)
    else if !s.involvedExists then Some(ObjectGone)
    else if EventKey(event) in processed then Some(AlreadyProcessed)
    else if s.policies.None? then Some(PoliciesUnavailable)
    else if |s.policies.value| == 0 then Some(NoPolicies)
    else None
  }

  /** Why an event is ignored before any policy is consulted. */
  function IgnoredBecause(processed: map<string, Time>, startup: Option<Time>, event: Event, s: Surroundings): Option<Ignorance> {
    var atOnce := IgnoredAtOnce(processed, startup, event, s);
    if atOnce.Some? then atOnce else if FirstMatch(event, s.policies.value).None? then Some(NoMatch) else None
  }

  function Reconciled(gate: Gate, startup: Option<Time>, event: Event, s: Surroundings, r: Readings): (Gate, Outcome) {
    match IgnoredBecause(gate.processed, startup, event, s)
    case Some(reason) => (gate, Ignored(reason))
    case None =>
      var index := FirstMatch(event, s.policies.value).value;
      Consulted(gate, event, index, s.policies.value[index], s, r)
  }

  /** The part of a reconcile that belongs to the first matching policy. */
  function Consulted(gate: Gate, event: Event, index: nat, policy: Policy, s: Surroundings, r: Readings): (Gate, Outcome) {
    Judged(gate, EventKey(event), KeyFor(event, policy, s.cluster), index, FirstSelector(event, policy.selectors), LimitsOf(policy),
           s.processingFails, r)
  }

  function Judged(gate: Gate, eventKey: string, key: string, index: nat, selector: Option<nat>, limits: Limits, fails: bool, r: Readings)
    : (Gate, Outcome)
  {
    if BlockedUntil(gate.objects, key, r.objectCheck) then (gate, Blocked(index, key, ObjectCooldown))
    else
      var verdict := RateVerdict(gate, key, limits, r.rateCheck);
      if !verdict.Pass? then (gate, Blocked(index, key, verdict))
      else (Admitted(gate, eventKey, key, limits, r), Processed(index, selector, key, fails))
  }

  /** The gate once an event was let through: counted, marked processed, its object put into cooldown. */
  function Admitted(gate: Gate, eventKey: string, key: string, limits: Limits, r: Readings): Gate {
    var counted := RateAdmitted(gate, key, limits, r.rateCheck);
    counted.(processed := gate.processed[eventKey := r.processedMark],
             objects := gate.objects[key := r.objectMark + OBJECT_COOLDOWN])
  }

  // ---------------------------------------------------------------- what decides an event, field by field

  /** The event has every value that the selector names, and its message the selector's pattern. */
  predicate Agrees(selector: Selector, event: Event) {
    && (selector.eventType == "" || selector.eventType == event.eventType)
    && (selector.reason == "" || selector.reason == event.reason)
    && (selector.kind == "" || selector.kind == event.involved.kind)
    && (selector.ns == "" || selector.ns == event.ns)
    && (selector.message == "" || selector.message in event.accepted)
  }

  /** No selector of any policy agrees with the event. */
  ghost predicate NoneAgrees(policies: seq<Policy>, event: Event) {
    forall i, j | 0 <= i < |policies| && 0 <= j < |policies[i].selectors| :: !Agrees(policies[i].selectors[j], event)
  }

  /** Policy by policy, selector `j` of policy `i` is the first that agrees with the event. */
  ghost predicate FirstToAgree(policies: seq<Policy>, event: Event, i: nat, j: nat) {
    && i < |policies| && j < |policies[i].selectors| && Agrees(policies[i].selectors[j], event)
    && (forall k | 0 <= k < j :: !Agrees(policies[i].selectors[k], event))
    && NoneAgrees(policies[..i], event)
  }

  /** The event is not from before the start, its object exists, and it was not processed yet. */
  predicate IsNew(processed: map<string, Time>, startup: Option<Time>, event: Event, involvedExists: bool) {
    && (startup.Some? && event.lastTimestamp.Some? ==> event.lastTimestamp.value >= startup.value)
    && (startup.Some? && event.lastTimestamp.None? && event.eventTime.Some? ==> event.eventTime.value >= startup.value)
    && involvedExists
    && event.ns + "/" + event.name + "/" + event.resourceVersion !in processed
  }

  lemma AgreeingMatches(event: Event, policies: seq<Policy>)
    ensures NoneAgrees(policies, event) <==> FirstMatch(event, policies) == None
    ensures forall i: nat, j: nat | FirstToAgree(policies, event, i, j) ::
              FirstMatch(event, policies) == Some(i) && FirstSelector(event, policies[i].selectors) == Some(j)
  {
    forall selector: Selector
      ensures MatchesSelector(event, selector) <==> Agrees(selector, event)
    {
    }
    forall i: nat, j: nat | FirstToAgree(policies, event, i, j)
      ensures FirstMatch(event, policies) == Some(i) && FirstSelector(event, policies[i].selectors) == Some(j)
    {
      FirstAgreeingMatches(event, policies, i, j);
    }
  }

  lemma FirstAgreeingMatches(event: Event, policies: seq<Policy>, i: nat, j: nat)
    requires FirstToAgree(policies, event, i, j)
    ensures FirstMatch(event, policies) == Some(i) && FirstSelector(event, policies[i].selectors) == Some(j)
  {
    assert MatchesSelector(event, policies[i].selectors[j]);
    forall h | 0 <= h < i
      ensures !MatchesPolicy(event, policies[h])
    {
      assert policies[..i][h] == policies[h];
    }
    FirstMatchIs(event, policies, Some(i));
  }

  /** The key names the policy, the object's namespace and what identifies the object. */
  ghost predicate KeyNames(key: string, id: PolicyId, cluster: Cluster, involved: ObjectRef) {
    exists text :: Identifies(cluster, involved, text) && key == id.ns + "/" + id.name + "/" + involved.ns + "/" + text
  }

  /** The policy at `i` lets the event through for its selector `j`, or blocks it, under the object's key. */
  ghost predicate DecidedBy(outcome: Outcome, id: PolicyId, i: nat, j: nat, involved: ObjectRef, s: Surroundings) {
    && !outcome.Ignored? && outcome.policy == i && KeyNames(outcome.key, id, s.cluster, involved)
    && (outcome.Processed? ==> outcome.selector == Some(j) && outcome.failed == s.processingFails)
  }

  lemma KeyForNames(event: Event, policy: Policy, cluster: Cluster)
    ensures KeyNames(KeyFor(event, policy, cluster), policy.id, cluster, event.involved)
  {
    RateLimitKeyText(cluster, policy.id.ns, policy.id.name, event.involved);
  }

  lemma ConsultedIsDecided(gate: Gate, event: Event, i: nat, j: nat, policy: Policy, s: Surroundings, r: Readings)
    requires FirstSelector(event, policy.selectors) == Some(j)
    ensures DecidedBy(Consulted(gate, event, i, policy, s, r).1, policy.id, i, j, event.involved, s)
  {
    KeyForNames(event, policy, s.cluster);
  }

  /** Only new events with an agreeing selector get past the first checks. */
  lemma IgnoredIff(gate: Gate, startup: Option<Time>, event: Event, s: Surroundings, r: Readings)
    requires s.policies.Some?
    ensures Reconciled(gate, startup, event, s, r).1.Ignored?
            <==> !IsNew(gate.processed, startup, event, s.involvedExists) || NoneAgrees(s.policies.value, event)
  {
    AgreeingMatches(event, s.policies.value);
    if IgnoredBecause(gate.processed, startup, event, s).None? {
      var index := FirstMatch(event, s.policies.value).value;
      var policy := s.policies.value[index];
      ConsultedIsDecided(gate, event, index, FirstSelector(event, policy.selectors).value, policy, s, r);
    }
  }

  /**
    Which policy decides an event: the one with the first selector that names only what the event
    has. No policy does if the event is old, its object gone or every selector names something else.
   */
  lemma SelectorsDecide(gate: Gate, startup: Option<Time>, event: Event, s: Surroundings, r: Readings, i: nat, j: nat)
    requires s.policies.Some?
    ensures var outcome := Reconciled(gate, startup, event, s, r).1;
            if !IsNew(gate.processed, startup, event, s.involvedExists) || NoneAgrees(s.policies.value, event) then outcome.Ignored?
            else FirstToAgree(s.policies.value, event, i, j) ==> DecidedBy(outcome, s.policies.value[i].id, i, j, event.involved, s)
  {
    IgnoredIff(gate, startup, event, s, r);
    if IsNew(gate.processed, startup, event, s.involvedExists) && FirstToAgree(s.policies.value, event, i, j) {
      AgreeingMatches(event, s.policies.value);
      ConsultedIsDecided(gate, event, i, j, s.policies.value[i], s, r);
    }
  }

  // ---------------------------------------------------------------- dirty keys and cleanups

  /** The dirty keys after an admission: durable cooldowns of persistent policies get marked. */
  function DirtyAfter(dirty: set<string>, minDuration: Time, policy: Policy, key: string, rateCheck: Time, dirtyMark: Time): set<string> {
    if SetsCooldown(LimitsOf(policy)) && CP.PersistenceEnabled(policy.persistence)
       && rateCheck + policy.cooldownMinutes * MINUTE - dirtyMark >= minDuration
    then dirty + {key} else dirty
  }

  /** The dirty keys once a policy has judged an event. */
  function DirtyThen(dirty: set<string>, minDuration: Time, policy: Policy, outcome: Outcome, r: Readings): set<string> {
    if outcome.Processed? then DirtyAfter(dirty, minDuration, policy, outcome.key, r.rateCheck, r.dirtyMark) else dirty
  }

  /** The dirty keys after a reconcile: those of its deciding policy. */
  function DirtyAfterEvent(dirty: set<string>, minDuration: Time, policies: Option<seq<Policy>>, outcome: Outcome, r: Readings): set<string> {
    if outcome.Processed? && policies.Some? && outcome.policy < |policies.value|
    then DirtyThen(dirty, minDuration, policies.value[outcome.policy], outcome, r) else dirty
  }

  function CleanedProcessed(processed: map<string, Time>, maxAge: Time, now: Time): map<string, Time> {
    map key | key in processed && now - processed[key] <= maxAge :: processed[key]
  }

  function CleanedObjects(objects: map<string, Time>, now: Time): map<string, Time> {
    map key | key in objects && now <= objects[key] :: objects[key]
  }

  // ---------------------------------------------------------------- the reconciler

  class RemediationPolicyReconciler {
    const persistence: CP.CooldownPersistence?
    var startupTime: Option<Time>
    var processedEvents: map<string, Time>
    var rateLimitTracking: map<string, seq<Time>>
    var cooldownTracking: map<string, Time>
    var objectCooldowns: map<string, Time>

    function State(): Gate
      reads this
    {
      Gate(processedEvents, rateLimitTracking, cooldownTracking, objectCooldowns)
    }

    /** A fresh process: nothing is tracked yet but the cooldowns restored from persistence. */
    constructor (persistence: CP.CooldownPersistence?, now: Time, restored: map<string, Time>)
      ensures this.persistence == persistence && startupTime == Some(now)
      ensures State() == EMPTY_GATE.(cooldowns := restored)
    {
      this.persistence := persistence;
      startupTime := Some(now);
      processedEvents, rateLimitTracking, cooldownTracking, objectCooldowns := map[], map[], restored, map[];
    }

    method IsObjectInCooldown(key: string, now: Time) returns (blocked: bool)
      ensures blocked == BlockedUntil(objectCooldowns, key, now)
    {
      blocked := key in objectCooldowns && now < objectCooldowns[key];
    }

    method SetObjectCooldown(key: string, now: Time)
      modifies this`objectCooldowns
      ensures objectCooldowns == old(objectCooldowns)[key := now + 5 * MINUTE]
    {
      objectCooldowns := objectCooldowns[key := now + OBJECT_COOLDOWN];
    }

    method MarkEventProcessed(eventKey: string, now: Time)
      modifies this`processedEvents
      ensures processedEvents == old(processedEvents)[eventKey := now]
    {
      processedEvents := processedEvents[eventKey := now];
    }

    /** The times less than a minute before `now`. */
    method WithinMinute(times: seq<Time>, now: Time) returns (filtered: seq<Time>)
      ensures filtered == Recent(times, now)
    {
      filtered := [];
      for i := 0 to |times|
        invariant filtered + Recent(times[i..], now) == Recent(times, now)
      {
        if times[i] > now - MINUTE {
          filtered := filtered + [times[i]];
        }
      }
    }

    method IsRateLimited(policy: Policy, key: string, now: Time, dirtyMark: Time) returns (verdict: Verdict)
      modifies this, persistence
      ensures verdict == RateVerdict(old(State()), key, LimitsOf(policy), now)
      ensures State() == AfterRateCheck(old(State()), key, LimitsOf(policy), now) && startupTime == old(startupTime)
      ensures persistence != null ==>
                var dirty := old(persistence.dirtyEntries);
                persistence.dirtyEntries ==
                  (if verdict.Pass? then DirtyAfter(dirty, persistence.minDuration, policy, key, now, dirtyMark) else dirty)
    {
      if policy.eventsPerMinute == 0 && policy.cooldownMinutes == 0 {
        return Pass;
      }
      if key in cooldownTracking && now < cooldownTracking[key] {
        return PolicyCooldown;
      }
      if policy.eventsPerMinute > 0 {
        var filtered := WithinMinute(if key in rateLimitTracking then rateLimitTracking[key] else [], now);
        if |filtered| >= policy.eventsPerMinute {
          return WindowFull;
        }
        rateLimitTracking := rateLimitTracking[key := filtered + [now]];
        if policy.cooldownMinutes > 0 {
          var end := now + policy.cooldownMinutes * MINUTE;
          cooldownTracking := cooldownTracking[key := end];
          var enabled := CP.IsPolicyPersistenceEnabled(policy.persistence);
          if persistence != null && enabled {
            persistence.MarkDirty(key, end, dirtyMark);
          }
        }
      }
      return Pass;
    }

    /** Checks field by field what the selector names. */
    method Matches(event: Event, selector: Selector) returns (matches: bool)
      ensures matches == MatchesSelector(event, selector)
    {
      if selector.eventType != "" && event.eventType != selector.eventType {
        return false;
      }
      if selector.reason != "" && event.reason != selector.reason {
        return false;
      }
      if selector.kind != "" && event.involved.kind != selector.kind {
        return false;
      }
      if selector.ns != "" && event.ns != selector.ns {
        return false;
      }
      if selector.message != "" {
        if selector.message !in event.accepted {
          return false;
        }
      }
      return true;
    }

    method MatchesPolicyWithSelector(event: Event, policy: Policy) returns (selector: Option<nat>)
      ensures selector == FirstSelector(event, policy.selectors)
    {
      for i := 0 to |policy.selectors|
        invariant forall j | 0 <= j < i :: !MatchesSelector(event, policy.selectors[j])
      {
        var matches := Matches(event, policy.selectors[i]);
        if matches {
          return Some(i);
        }
      }
      return None;
    }

    /** The checks before the policies are looked at. */
    method IgnoreAtOnce(event: Event, s: Surroundings) returns (reason: Option<Ignorance>)
      ensures reason == IgnoredAtOnce(processedEvents, startupTime, event, s)
    {
      var historical := IsHistorical(event);
      if historical {
        return Some(Ignorance.IsHistorical);
      }
      if !s.involvedExists {
        return Some(ObjectGone);
      }
      var eventKey := event.ns + "/" + event.name + "/" + event.resourceVersion;
      if eventKey in processedEvents {
        return Some(AlreadyProcessed);
      }
      if s.policies.None? {
        return Some(PoliciesUnavailable);
      }
      if |s.policies.value| == 0 {
        return Some(NoPolicies);
      }
      return None;
    }

    method IsHistorical(event: Event) returns (historical: bool)
      ensures historical == Historical(startupTime, event)
    {
      if startupTime.None? {
        return false;
      }
      var time := event.lastTimestamp;
      if time.None? {
        time := event.eventTime;
      }
      return time.Some? && time.value < startupTime.value;
    }

    /** Reconciles one event; `s` stands for the API server's answers and the outcome of processing. */
    method ReconcileEvent(event: Event, s: Surroundings, r: Readings) returns (outcome: Outcome)
      modifies this, persistence
      ensures (State(), outcome) == Reconciled(old(State()), old(startupTime), event, s, r) && startupTime == old(startupTime)
      ensures persistence != null ==>
                persistence.dirtyEntries ==
                DirtyAfterEvent(old(persistence.dirtyEntries), persistence.minDuration, s.policies, outcome, r)
    {
      var reason := IgnoreAtOnce(event, s);
      if reason.Some? {
        return Ignored(reason.value);
      }
      var index, selector := FirstMatchingPolicy(event, s.policies.value);
      if index.None? {
        return Ignored(NoMatch);
      }
      outcome := Consult(event, index.value, s.policies.value[index.value], selector, s, r);
    }

    /** The loop over the policies, up to the first that matches. */
    method FirstMatchingPolicy(event: Event, policies: seq<Policy>) returns (index: Option<nat>, selector: Option<nat>)
      ensures index == FirstMatch(event, policies)
      ensures index.Some? ==> selector == FirstSelector(event, policies[index.value].selectors)
    {
      for i := 0 to |policies|
        invariant forall j | 0 <= j < i :: !MatchesPolicy(event, policies[j])
      {
        selector := MatchesPolicyWithSelector(event, policies[i]);
        if selector.Some? {
          FirstMatchIs(event, policies, Some(i));
          return Some(i), selector;
        }
      }
      FirstMatchIs(event, policies, None);
      return None, None;
    }

    /** The gate of the first matching policy; whatever it decides, no further policy is consulted. */
    method Consult(event: Event, index: nat, policy: Policy, selector: Option<nat>, s: Surroundings, r: Readings) returns (outcome: Outcome)
      requires selector == FirstSelector(event, policy.selectors)
      modifies this, persistence
      ensures (State(), outcome) == Consulted(old(State()), event, index, policy, s, r) && startupTime == old(startupTime)
      ensures outcome.Processed? ==> outcome.policy == index
      ensures persistence != null ==>
                persistence.dirtyEntries == DirtyThen(old(persistence.dirtyEntries), persistence.minDuration, policy, outcome, r)
    {
      outcome := Judge(EventKey(event), KeyFor(event, policy, s.cluster), index, selector, policy, s.processingFails, r);
    }

    method Judge(eventKey: string, key: string, index: nat, selector: Option<nat>, policy: Policy, fails: bool, r: Readings)
      returns (outcome: Outcome)
      modifies this, persistence
      ensures (State(), outcome) == Judged(old(State()), eventKey, key, index, selector, LimitsOf(policy), fails, r)
      ensures startupTime == old(startupTime)
      ensures outcome.Processed? ==> outcome.policy == index
      ensures persistence != null ==>
                persistence.dirtyEntries == DirtyThen(old(persistence.dirtyEntries), persistence.minDuration, policy, outcome, r)
    {
      var inCooldown := IsObjectInCooldown(key, r.objectCheck);
      if inCooldown {
        return Blocked(index, key, ObjectCooldown);
      }
      var verdict := IsRateLimited(policy, key, r.rateCheck, r.dirtyMark);
      if !verdict.Pass? {
        return Blocked(index, key, verdict);
      }
      MarkEventProcessed(eventKey, r.processedMark);
      SetObjectCooldown(key, r.objectMark);
      return Processed(index, selector, key, fails);
    }

    method CleanupProcessedEvents(maxAge: Time, now: Time)
      modifies this`processedEvents
      ensures processedEvents == CleanedProcessed(old(processedEvents), maxAge, now)
    {
      var pending := processedEvents.Keys;
      while pending != {}
        invariant pending <= old(processedEvents).Keys
        invariant forall key :: key in processedEvents <==>
                    key in old(processedEvents) && (key in pending || now - old(processedEvents)[key] <= maxAge)
        invariant forall key | key in processedEvents :: processedEvents[key] == old(processedEvents)[key]
        decreases pending
      {
        var key :| key in pending;
        if now - processedEvents[key] > maxAge {
          processedEvents := processedEvents - {key};
        }
        pending := pending - {key};
      }
    }

    method CleanupObjectCooldowns(now: Time)
      modifies this`objectCooldowns
      ensures objectCooldowns == CleanedObjects(old(objectCooldowns), now)
    {
      var pending := objectCooldowns.Keys;
      while pending != {}
        invariant pending <= old(objectCooldowns).Keys
        invariant forall key :: key in objectCooldowns <==>
                    key in old(objectCooldowns) && (key in pending || now <= old(objectCooldowns)[key])
        invariant forall key | key in objectCooldowns :: objectCooldowns[key] == old(objectCooldowns)[key]
        decreases pending
      {
        var key :| key in pending;
        if now > objectCooldowns[key] {
          objectCooldowns := objectCooldowns - {key};
        }
        pending := pending - {key};
      }
    }
  }
}
