/** Whole runs of the remediation gate: spacing of remediations, and refinement by one timer per key. */
module GateRuns {
  import opened Basics
  import opened CooldownKeys
  import opened EventGate

  /** A reconcile of an event, the periodic cleanups of a policy reconcile, or a new process. */
  datatype Action =
    | OnEvent(event: Event, s: Surroundings, r: Readings)
    | Maintain(processedAt: Time, objectsAt: Time)
    | Restart(at: Time, restored: map<string, Time>)

  datatype Process = Process(gate: Gate, startup: Option<Time>)

  function Started(at: Time, restored: map<string, Time>): Process {
    Process(EMPTY_GATE.(cooldowns := restored), Some(at))
  }

  function Step(p: Process, a: Action): (Process, Option<Outcome>) {
    match a
    case OnEvent(event, s, r) =>
      var (gate, outcome) := Reconciled(p.gate, p.startup, event, s, r);
      (p.(gate := gate), Some(outcome))
    case Maintain(processedAt, objectsAt) =>
      (p.(gate := p.gate.(processed := CleanedProcessed(p.gate.processed, PROCESSED_EVENT_AGE, processedAt),
                          objects := CleanedObjects(p.gate.objects, objectsAt))), None)
    case Restart(at, restored) => (Started(at, restored), None)
  }

  /** What happened at each action of a run. */
  function Trace(p: Process, actions: seq<Action>): (trace: seq<Option<Outcome>>)
    ensures |trace| == |actions|
    decreases |actions|
  {
    if |actions| == 0 then []
    else var (next, outcome) := Step(p, actions[0]); [outcome] + Trace(next, actions[1..])
  }

  /** The readings of an action are in order and none is earlier than `clock`. */
  predicate TimedAfter(clock: Time, a: Action) {
    match a
    case OnEvent(_, _, r) => clock <= r.objectCheck && r.Ordered()
    case Maintain(processedAt, objectsAt) => clock <= processedAt <= objectsAt
    case Restart(at, _) => clock <= at
  }

  function LastReading(a: Action): Time {
    match a
    case OnEvent(_, _, r) => r.objectMark
    case Maintain(_, objectsAt) => objectsAt
    case Restart(at, _) => at
  }

  predicate Timed(clock: Time, actions: seq<Action>)
    decreases |actions|
  {
    |actions| == 0 || (TimedAfter(clock, actions[0]) && Timed(LastReading(actions[0]), actions[1..]))
  }

  /** A reconcile ignores the event, or one policy judges one key. */
  lemma JudgedOrIgnored(gate: Gate, startup: Option<Time>, event: Event, s: Surroundings, r: Readings)
    returns (judged: bool, key: string, index: nat, selector: Option<nat>, limits: Limits)
    ensures judged <==> IgnoredBecause(gate.processed, startup, event, s).None?
    ensures judged ==>
              && Reconciled(gate, startup, event, s, r) == Judged(gate, EventKey(event), key, index, selector, limits, s.processingFails, r)
              && Some(index) == FirstMatch(event, s.policies.value) && EventKey(event) !in gate.processed
              && key == KeyFor(event, s.policies.value[index], s.cluster) && limits == LimitsOf(s.policies.value[index])
              && selector == FirstSelector(event, s.policies.value[index].selectors)
    ensures !judged ==>
              Reconciled(gate, startup, event, s, r) == (gate, Ignored(IgnoredBecause(gate.processed, startup, event, s).value))
  {
    judged, key, index, selector, limits := false, "", 0, None, Limits(0, 0);
    if IgnoredBecause(gate.processed, startup, event, s).None? {
      judged, index := true, FirstMatch(event, s.policies.value).value;
      var policy := s.policies.value[index];
      key, selector, limits := KeyFor(event, policy, s.cluster), FirstSelector(event, policy.selectors), LimitsOf(policy);
    }
  }

  /** A cleanup forgets events of more than ten minutes ago and object cooldowns that have ended, nothing else. */
  lemma CleanupForgets(p: Process, processedAt: Time, objectsAt: Time, key: string)
    ensures var before, after := p.gate, Step(p, Maintain(processedAt, objectsAt)).0.gate;
            && (key in after.processed <==> key in before.processed && before.processed[key] >= processedAt - 600_000_000_000)
            && (key in after.processed ==> after.processed[key] == before.processed[key])
            && (key in after.objects <==> key in before.objects && before.objects[key] >= objectsAt)
            && (key in after.objects ==> after.objects[key] == before.objects[key])
            && after.window == before.window && after.cooldowns == before.cooldowns
  {
  }

  // ---------------------------------------------------------------- the window is never the limit

  /** Every counted admission lies behind the object cooldown that it started. */
  ghost predicate WindowIdle(gate: Gate, clock: Time) {
    forall key, i | key in gate.window && 0 <= i < |gate.window[key]| :: Covered(gate.objects, key, gate.window[key][i], clock)
  }

  predicate Covered(objects: map<string, Time>, key: string, admission: Time, clock: Time) {
    (key in objects && admission + OBJECT_COOLDOWN <= objects[key]) || admission + OBJECT_COOLDOWN <= clock
  }

  lemma {:induction false} RecentEmpty(times: seq<Time>, now: Time)
    requires forall i | 0 <= i < |times| :: times[i] <= now - MINUTE
    ensures Recent(times, now) == []
  {
    if |times| > 0 {
      RecentEmpty(times[1..], now);
    }
  }

  /** A consulted key that is out of its object cooldown has nothing left in its window. */
  lemma WindowEmptyWhenConsulted(gate: Gate, clock: Time, key: string, objectCheck: Time, rateCheck: Time)
    requires WindowIdle(gate, clock) && clock <= objectCheck <= rateCheck && !BlockedUntil(gate.objects, key, objectCheck)
    ensures Recent(Times(gate.window, key), rateCheck) == []
  {
    var times := Times(gate.window, key);
    forall i | 0 <= i < |times|
      ensures times[i] <= rateCheck - MINUTE
    {
      assert Covered(gate.objects, key, times[i], clock);
    }
    RecentEmpty(times, rateCheck);
  }

  lemma WindowIdleAdmitted(gate: Gate, clock: Time, eventKey: string, key: string, limits: Limits, r: Readings)
    requires WindowIdle(gate, clock) && clock <= r.objectCheck && r.Ordered() && !BlockedUntil(gate.objects, key, r.objectCheck)
    ensures WindowIdle(Admitted(gate, eventKey, key, limits, r), r.objectMark)
  {
    WindowEmptyWhenConsulted(gate, clock, key, r.objectCheck, r.rateCheck);
    var after := Admitted(gate, eventKey, key, limits, r);
    forall k, i | k in after.window && 0 <= i < |after.window[k]|
      ensures Covered(after.objects, k, after.window[k][i], r.objectMark)
    {
      if k != key || limits.eventsPerMinute <= 0 {
        assert Covered(gate.objects, k, gate.window[k][i], clock);
      }
    }
  }

  lemma WindowIdleJudged(gate: Gate, clock: Time, eventKey: string, key: string, index: nat, selector: Option<nat>, limits: Limits,
                         fails: bool, r: Readings)
    requires WindowIdle(gate, clock) && clock <= r.objectCheck && r.Ordered()
    ensures var (after, outcome) := Judged(gate, eventKey, key, index, selector, limits, fails, r);
            WindowIdle(after, r.objectMark) && (outcome.Blocked? ==> !outcome.verdict.WindowFull?)
  {
    if !BlockedUntil(gate.objects, key, r.objectCheck) {
      WindowEmptyWhenConsulted(gate, clock, key, r.objectCheck, r.rateCheck);
      WindowIdleAdmitted(gate, clock, eventKey, key, limits, r);
    }
    WindowIdleLater(gate, clock, r.objectMark);
  }

  lemma WindowIdleLater(gate: Gate, clock: Time, later: Time)
    requires WindowIdle(gate, clock) && clock <= later
    ensures WindowIdle(gate, later)
  {
    forall key, i | key in gate.window && 0 <= i < |gate.window[key]|
      ensures Covered(gate.objects, key, gate.window[key][i], later)
    {
      assert Covered(gate.objects, key, gate.window[key][i], clock);
    }
  }

  lemma WindowIdleMaintained(gate: Gate, clock: Time, processed: map<string, Time>, objectsAt: Time)
    requires WindowIdle(gate, clock) && clock <= objectsAt
    ensures WindowIdle(gate.(processed := processed, objects := CleanedObjects(gate.objects, objectsAt)), objectsAt)
  {
    forall key, i | key in gate.window && 0 <= i < |gate.window[key]|
      ensures Covered(CleanedObjects(gate.objects, objectsAt), key, gate.window[key][i], objectsAt)
    {
      assert Covered(gate.objects, key, gate.window[key][i], clock);
    }
  }

  lemma WindowIdleStep(p: Process, a: Action, clock: Time)
    requires WindowIdle(p.gate, clock) && TimedAfter(clock, a)
    ensures WindowIdle(Step(p, a).0.gate, LastReading(a))
    ensures Step(p, a).1.Some? && Step(p, a).1.value.Blocked? ==> !Step(p, a).1.value.verdict.WindowFull?
  {
    match a
    case OnEvent(event, s, r) =>
      var judged, key, index, selector, limits := JudgedOrIgnored(p.gate, p.startup, event, s, r);
      if judged {
        WindowIdleJudged(p.gate, clock, EventKey(event), key, index, selector, limits, s.processingFails, r);
      } else {
        WindowIdleLater(p.gate, clock, r.objectMark);
      }
    case Maintain(processedAt, objectsAt) =>
      WindowIdleMaintained(p.gate, clock, CleanedProcessed(p.gate.processed, PROCESSED_EVENT_AGE, processedAt), objectsAt);
    case Restart(_, _) =>
  }

  lemma {:induction false} WindowNeverFullFrom(p: Process, actions: seq<Action>, clock: Time, i: nat)
    requires WindowIdle(p.gate, clock) && Timed(clock, actions) && i < |actions|
    ensures var outcome := Trace(p, actions)[i];
            outcome.Some? && outcome.value.Blocked? ==> !outcome.value.verdict.WindowFull?
    decreases |actions|
  {
    WindowIdleStep(p, actions[0], clock);
    if i > 0 {
      WindowNeverFullFrom(Step(p, actions[0]).0, actions[1..], LastReading(actions[0]), i - 1);
    }
  }

  /**
    No event of any run is turned away because the one-minute window is full, whatever the
    settings: the object cooldown has always emptied the window first.
   */
  lemma WindowNeverFull(at: Time, restored: map<string, Time>, actions: seq<Action>, i: nat)
    requires Timed(at, actions) && i < |actions|
    ensures var outcome := Trace(Started(at, restored), actions)[i];
            outcome.Some? && outcome.value.Blocked? ==> !outcome.value.verdict.WindowFull?
  {
    WindowNeverFullFrom(Started(at, restored), actions, at, i);
  }

  // ---------------------------------------------------------------- spacing of remediations

  predicate NoRestart(actions: seq<Action>) {
    forall i | 0 <= i < |actions| :: !actions[i].Restart?
  }

  /** The action let its event through to remediation. */
  predicate Remediates(a: Action, outcome: Option<Outcome>) {
    a.OnEvent? && outcome.Some? && outcome.value.Processed? && a.s.policies.Some? && outcome.value.policy < |a.s.policies.value|
  }

  function PolicyAt(a: Action, outcome: Option<Outcome>): Policy
    requires Remediates(a, outcome)
  {
    a.s.policies.value[outcome.value.policy]
  }

  /** What the gate remembers of a remediation of `key` and `eventKey` under `limits` with readings `r`. */
  predicate Remembers(gate: Gate, clock: Time, key: string, eventKey: string, limits: Limits, r: Readings) {
    && clock >= r.objectMark && r.Ordered()
    && RemembersObject(gate, clock, key, r) && RemembersEvent(gate, clock, eventKey, r) && RemembersCooldown(gate, key, limits, r)
  }

  predicate RemembersObject(gate: Gate, clock: Time, key: string, r: Readings) {
    (key in gate.objects && gate.objects[key] >= r.objectMark + OBJECT_COOLDOWN) || clock >= r.objectMark + OBJECT_COOLDOWN
  }

  predicate RemembersEvent(gate: Gate, clock: Time, eventKey: string, r: Readings) {
    (eventKey in gate.processed && gate.processed[eventKey] >= r.processedMark) || clock > r.processedMark + PROCESSED_EVENT_AGE
  }

  predicate RemembersCooldown(gate: Gate, key: string, limits: Limits, r: Readings) {
    SetsCooldown(limits) ==> key in gate.cooldowns && gate.cooldowns[key] >= r.rateCheck + limits.cooldownMinutes * MINUTE
  }

  /** The spacing between an earlier remediation and a later one. */
  predicate Spaced(earlier: Action, earlierOutcome: Option<Outcome>, later: Action, laterOutcome: Option<Outcome>)
    requires Remediates(earlier, earlierOutcome) && Remediates(later, laterOutcome)
  {
    var limits := LimitsOf(PolicyAt(earlier, earlierOutcome));
    && (earlierOutcome.value.key == laterOutcome.value.key ==>
          && later.r.objectCheck >= earlier.r.objectMark + 5 * MINUTE
          && (SetsCooldown(limits) && !LimitsOf(PolicyAt(later, laterOutcome)).Unlimited() ==>
                later.r.rateCheck >= earlier.r.rateCheck + limits.cooldownMinutes * MINUTE))
    && (EventKey(earlier.event) == EventKey(later.event) ==>
          later.r.objectCheck > earlier.r.processedMark + 10 * MINUTE)
  }

  lemma RemembersAfter(p: Process, a: Action, clock: Time)
    requires TimedAfter(clock, a) && Remediates(a, Step(p, a).1)
    ensures var outcome := Step(p, a).1;
            Remembers(Step(p, a).0.gate, LastReading(a), outcome.value.key, EventKey(a.event), LimitsOf(PolicyAt(a, outcome)), a.r)
  {
  }

  lemma AdmissionRemembers(gate: Gate, clock: Time, eventKey: string, admittedKey: string, admittedLimits: Limits, now: Readings,
                           key: string, limits: Limits, r: Readings)
    requires clock >= r.objectMark && r.Ordered() && clock <= now.objectCheck && now.Ordered()
    requires !BlockedUntil(gate.objects, admittedKey, now.objectCheck)
    requires RateVerdict(gate, admittedKey, admittedLimits, now.rateCheck).Pass?
    requires RemembersObject(gate, clock, key, r) && RemembersCooldown(gate, key, limits, r)
    ensures var after := Admitted(gate, eventKey, admittedKey, admittedLimits, now);
            RemembersObject(after, now.objectMark, key, r) && RemembersCooldown(after, key, limits, r)
  {
  }

  lemma ReconcileRemembers(p: Process, a: Action, clock: Time, key: string, eventKey: string, limits: Limits, r: Readings)
    requires Remembers(p.gate, clock, key, eventKey, limits, r) && TimedAfter(clock, a) && a.OnEvent?
    ensures Remembers(Step(p, a).0.gate, LastReading(a), key, eventKey, limits, r)
  {
    var judged, judgedKey, _, _, judgedLimits := JudgedOrIgnored(p.gate, p.startup, a.event, a.s, a.r);
    if judged && !BlockedUntil(p.gate.objects, judgedKey, a.r.objectCheck)
       && RateVerdict(p.gate, judgedKey, judgedLimits, a.r.rateCheck).Pass? {
      AdmissionRemembers(p.gate, clock, EventKey(a.event), judgedKey, judgedLimits, a.r, key, limits, r);
    }
  }

  lemma RemembersStep(p: Process, a: Action, clock: Time, key: string, eventKey: string, limits: Limits, r: Readings)
    requires Remembers(p.gate, clock, key, eventKey, limits, r) && TimedAfter(clock, a) && !a.Restart?
    ensures Remembers(Step(p, a).0.gate, LastReading(a), key, eventKey, limits, r)
  {
    if a.OnEvent? {
      ReconcileRemembers(p, a, clock, key, eventKey, limits, r);
    }
  }

  lemma TraceTail(p: Process, actions: seq<Action>, i: nat)
    requires 0 < i < |actions|
    ensures Trace(p, actions)[i] == Trace(Step(p, actions[0]).0, actions[1..])[i - 1]
  {
  }

  lemma TraceHead(p: Process, actions: seq<Action>)
    requires |actions| > 0
    ensures Trace(p, actions)[0] == Step(p, actions[0]).1
  {
  }

  /** Action `a` happens at position `i` of the run, with that outcome, and remediates. */
  predicate RemediatesAt(p: Process, actions: seq<Action>, i: nat, a: Action, outcome: Option<Outcome>) {
    i < |actions| && a == actions[i] && outcome == Trace(p, actions)[i] && Remediates(a, outcome)
  }

  lemma RemediatesInTail(p: Process, actions: seq<Action>, i: nat, a: Action, outcome: Option<Outcome>)
    requires i > 0 && RemediatesAt(p, actions, i, a, outcome)
    ensures RemediatesAt(Step(p, actions[0]).0, actions[1..], i - 1, a, outcome)
  {
    TraceTail(p, actions, i);
  }

  lemma RemembersSpaces(p: Process, a: Action, clock: Time, earlier: Action, outcome: Option<Outcome>)
    requires Remediates(earlier, outcome) && TimedAfter(clock, a) && Remediates(a, Step(p, a).1)
    requires Remembers(p.gate, clock, outcome.value.key, EventKey(earlier.event), LimitsOf(PolicyAt(earlier, outcome)), earlier.r)
    ensures Spaced(earlier, outcome, a, Step(p, a).1)
  {
    var judged, key, index, selector, limits := JudgedOrIgnored(p.gate, p.startup, a.event, a.s, a.r);
  }

  lemma {:induction false} SpacedFrom(p: Process, actions: seq<Action>, clock: Time, earlier: Action, outcome: Option<Outcome>,
                                      j: nat, later: Action, laterOutcome: Option<Outcome>)
    requires Remediates(earlier, outcome) && Timed(clock, actions) && RemediatesAt(p, actions, j, later, laterOutcome)
    requires NoRestart(actions[..j])
    requires Remembers(p.gate, clock, outcome.value.key, EventKey(earlier.event), LimitsOf(PolicyAt(earlier, outcome)), earlier.r)
    ensures Spaced(earlier, outcome, later, laterOutcome)
    decreases |actions|
  {
    var a := actions[0];
    if j > 0 {
      assert a == actions[..j][0] && actions[1..][..j - 1] == actions[..j][1..];
      RemediatesInTail(p, actions, j, later, laterOutcome);
      RemembersStep(p, a, clock, outcome.value.key, EventKey(earlier.event), LimitsOf(PolicyAt(earlier, outcome)), earlier.r);
      SpacedFrom(Step(p, a).0, actions[1..], LastReading(a), earlier, outcome, j - 1, later, laterOutcome);
    } else {
      TraceHead(p, actions);
      RemembersSpaces(p, a, clock, earlier, outcome);
    }
  }

  lemma SpacedAfter(p: Process, a: Action, clock: Time, rest: seq<Action>, j: nat, later: Action, laterOutcome: Option<Outcome>)
    requires Remediates(a, Step(p, a).1) && TimedAfter(clock, a) && Timed(LastReading(a), rest)
    requires RemediatesAt(Step(p, a).0, rest, j, later, laterOutcome) && NoRestart(rest[..j])
    ensures Spaced(a, Step(p, a).1, later, laterOutcome)
  {
    RemembersAfter(p, a, clock);
    SpacedFrom(Step(p, a).0, rest, LastReading(a), a, Step(p, a).1, j, later, laterOutcome);
  }

  /**
    In any run, two remediations of one process are spaced: those of one key by the object
    cooldown and by the policy cooldown set at the earlier one, those of one event by more than
    the age at which processed events are forgotten. Whether processing failed does not matter.
   */
  lemma {:induction false} RemediationsAreSpaced(p: Process, actions: seq<Action>, clock: Time, i: nat, a: Action, outcome: Option<Outcome>,
                                                 j: nat, later: Action, laterOutcome: Option<Outcome>)
    requires Timed(clock, actions) && RemediatesAt(p, actions, i, a, outcome) && RemediatesAt(p, actions, j, later, laterOutcome)
    requires i < j && NoRestart(actions[i..j])
    ensures Spaced(a, outcome, later, laterOutcome)
    decreases |actions|
  {
    if i > 0 {
      assert actions[1..][i - 1..j - 1] == actions[i..j];
      RemediatesInTail(p, actions, i, a, outcome);
      RemediatesInTail(p, actions, j, later, laterOutcome);
      RemediationsAreSpaced(Step(p, actions[0]).0, actions[1..], LastReading(actions[0]), i - 1, a, outcome, j - 1, later, laterOutcome);
    } else {
      assert actions[1..][..j - 1] == actions[i..j][1..];
      TraceHead(p, actions);
      RemediatesInTail(p, actions, j, later, laterOutcome);
      SpacedAfter(p, a, clock, actions[1..], j - 1, later, laterOutcome);
    }
  }

  /** An event is remediated under the first matching policy or under none, even if that policy blocks it. */
  lemma OnlyFirstMatchDecides(p: Process, a: Action, index: nat)
    requires a.OnEvent? && a.s.policies.Some?
    requires var outcome := Step(p, a).1.value;
             (outcome.Processed? && outcome.policy == index) || (outcome.Blocked? && outcome.policy == index)
    ensures index < |a.s.policies.value| && MatchesPolicy(a.event, a.s.policies.value[index])
    ensures forall i | 0 <= i < index :: !MatchesPolicy(a.event, a.s.policies.value[i])
    ensures var outcome := Step(p, a).1.value;
            outcome.Processed? ==> outcome.selector == FirstSelector(a.event, a.s.policies.value[index].selectors)
    ensures EventKey(a.event) !in p.gate.processed
  {
    var _, _, first, _, _ := JudgedOrIgnored(p.gate, p.startup, a.event, a.s, a.r);
    assert first == index;
  }

  // ---------------------------------------------------------------- when the cooldown setting is kept

  /** A run, and two positions in it with what happened there. */
  datatype Pair = Pair(p: Process, clock: Time, actions: seq<Action>, i: nat, a: Action, outcome: Option<Outcome>,
                       j: nat, later: Action, laterOutcome: Option<Outcome>)
  {
    /** Both remediate the same key under the policy, in one process. */
    ghost predicate Under(policy: Policy) {
      && Timed(clock, actions)
      && RemediatesAt(p, actions, i, a, outcome) && RemediatesAt(p, actions, j, later, laterOutcome)
      && i < j && NoRestart(actions[i..j])
      && PolicyAt(a, outcome) == policy == PolicyAt(later, laterOutcome) && outcome.value.key == laterOutcome.value.key
    }
  }

  /** If both are remediations under the policy, they are as far apart as its cooldown setting asks. */
  ghost predicate ApartAsSet(policy: Policy, x: Pair) {
    x.Under(policy) ==> x.later.r.rateCheck >= x.a.r.rateCheck + policy.cooldownMinutes * MINUTE
  }

  /** That holds in every run from every state. */
  ghost predicate CooldownKept(policy: Policy) {
    forall x: Pair :: ApartAsSet(policy, x)
  }

  lemma LimitedIsApart(policy: Policy, x: Pair)
    requires SetsCooldown(LimitsOf(policy))
    ensures ApartAsSet(policy, x)
  {
    if x.Under(policy) {
      RemediationsAreSpaced(x.p, x.actions, x.clock, x.i, x.a, x.outcome, x.j, x.later, x.laterOutcome);
    }
  }

  /**
    A cooldown setting beyond the five minutes of the object cooldown is kept over all runs exactly if
    the policy limits the events per minute as well.
   */
  lemma CooldownKeptIff(policy: Policy)
    requires policy.cooldownMinutes > 5 && |policy.selectors| > 0
    ensures CooldownKept(policy) <==> policy.eventsPerMinute > 0
  {
    if policy.eventsPerMinute > 0 {
      forall x: Pair
        ensures ApartAsSet(policy, x)
      {
        LimitedIsApart(policy, x);
      }
    } else {
      var x := RemediatedAfterFiveMinutes(policy);
      assert !ApartAsSet(policy, x);
    }
  }

  /** An event that a selector matches; `version` tells two such events apart. */
  function EventFor(selector: Selector, version: string): Event {
    Event(selector.ns, "e", version, selector.eventType, selector.reason, {selector.message}, ObjectRef(selector.kind, "o", "x"), None, None)
  }

  /** The reconcile of such an event when `policy` is the only one, all at one time. */
  function Occurrence(policy: Policy, version: string, at: Time): Action
    requires |policy.selectors| > 0
  {
    OnEvent(EventFor(policy.selectors[0], version), Surroundings(true, Some([policy]), Cluster(map[], map[]), false),
            Readings(at, at, at, at, at))
  }

  /** Nothing blocks the event: it is remediated and leaves a five-minute object cooldown. */
  lemma OccurrencePasses(p: Process, policy: Policy, version: string, at: Time) returns (key: string)
    requires |policy.selectors| > 0 && policy.eventsPerMinute <= 0 && policy.cooldownMinutes > 0
    requires EventKey(EventFor(policy.selectors[0], version)) !in p.gate.processed && p.gate.cooldowns == map[]
    requires !BlockedUntil(p.gate.objects, KeyFor(EventFor(policy.selectors[0], ""), policy, Cluster(map[], map[])), at)
    ensures key == KeyFor(EventFor(policy.selectors[0], ""), policy, Cluster(map[], map[]))
    ensures var (next, outcome) := Step(p, Occurrence(policy, version, at));
            && outcome.Some? && outcome.value.Processed? && outcome.value.policy == 0 && outcome.value.key == key
            && next.gate.cooldowns == map[] && next.gate.objects == p.gate.objects[key := at + OBJECT_COOLDOWN]
            && next.gate.processed == p.gate.processed[EventKey(EventFor(policy.selectors[0], version)) := at]
  {
    var event := EventFor(policy.selectors[0], version);
    assert MatchesSelector(event, policy.selectors[0]);
    assert MatchesPolicy(event, policy);
    FirstMatchIs(event, [policy], Some(0));
    key := KeyFor(event, policy, Cluster(map[], map[]));
    var a := Occurrence(policy, version, at);
    var judged, judgedKey, index, selector, limits := JudgedOrIgnored(p.gate, p.startup, a.event, a.s, a.r);
  }

  lemma VersionsDiffer(selector: Selector)
    ensures EventKey(EventFor(selector, "1")) != EventKey(EventFor(selector, "2"))
  {
    var one, two := EventKey(EventFor(selector, "1")), EventKey(EventFor(selector, "2"));
    assert one[|one| - 1] == '1' && two[|two| - 1] == '2';
  }

  /** The first of two such events passes and leaves the gate open for the second, five minutes later. */
  lemma BothPass(policy: Policy) returns (key: string)
    requires |policy.selectors| > 0 && policy.eventsPerMinute <= 0 && policy.cooldownMinutes > 0
    ensures var a, later := Occurrence(policy, "1", 0), Occurrence(policy, "2", 5 * MINUTE);
            var (next, outcome) := Step(Started(0, map[]), a);
            var laterOutcome := Step(next, later).1;
            && outcome.Some? && outcome.value.Processed? && outcome.value.policy == 0 && outcome.value.key == key
            && laterOutcome.Some? && laterOutcome.value.Processed? && laterOutcome.value.policy == 0 && laterOutcome.value.key == key
  {
    key := OccurrencePasses(Started(0, map[]), policy, "1", 0);
    VersionsDiffer(policy.selectors[0]);
    var _ := OccurrencePasses(Step(Started(0, map[]), Occurrence(policy, "1", 0)).0, policy, "2", 5 * MINUTE);
  }

  /** Without a limit on the events per minute, two remediations of a key are five minutes apart, whatever the cooldown setting. */
  lemma RemediatedAfterFiveMinutes(policy: Policy) returns (x: Pair)
    requires |policy.selectors| > 0 && policy.eventsPerMinute <= 0 && policy.cooldownMinutes > 0
    ensures x.p == Started(0, map[]) && x.Under(policy) && x.later.r.rateCheck == x.a.r.rateCheck + 5 * MINUTE
  {
    var start, a, later := Started(0, map[]), Occurrence(policy, "1", 0), Occurrence(policy, "2", 5 * MINUTE);
    var _ := BothPass(policy);
    x := PairOf(policy, start, 0, a, later);
  }

  /** A run of two actions that both remediate under the policy. */
  lemma PairOf(policy: Policy, p: Process, clock: Time, a: Action, later: Action) returns (x: Pair)
    requires TimedAfter(clock, a) && TimedAfter(LastReading(a), later)
    requires var (next, outcome) := Step(p, a);
             var laterOutcome := Step(next, later).1;
             && Remediates(a, outcome) && Remediates(later, laterOutcome)
             && PolicyAt(a, outcome) == policy == PolicyAt(later, laterOutcome) && outcome.value.key == laterOutcome.value.key
    ensures x.p == p && x.a == a && x.later == later && x.Under(policy)
  {
    var (next, outcome) := Step(p, a);
    x := Pair(p, clock, [a, later], 0, a, outcome, 1, later, Step(next, later).1);
    TwoActions(p, a, later);
    assert [a, later][1..] == [later] && [later][1..] == [];
  }

  lemma TwoActions(p: Process, a: Action, later: Action)
    ensures Trace(p, [a, later])[0] == Step(p, a).1 && Trace(p, [a, later])[1] == Step(Step(p, a).0, later).1
  {
    var actions := [a, later];
    assert actions[1..] == [later];
    TraceHead(p, actions);
    TraceTail(p, actions, 1);
    TraceHead(Step(p, a).0, [later]);
  }

  /** The setting in question: a cooldown of 30 minutes with an explicit zero for the events per minute. */
  lemma CooldownSettingExample() returns (policy: Policy, x: Pair)
    ensures policy == Policy(PolicyId("n", "p"), [Selector("Warning", "", "", "", "")], 0, 30, None)
    ensures x.p == Started(0, map[]) && x.Under(policy) && x.later.r.rateCheck == x.a.r.rateCheck + 300_000_000_000
  {
    policy := Policy(PolicyId("n", "p"), [Selector("Warning", "", "", "", "")], 0, 30, None);
    x := RemediatedAfterFiveMinutes(policy);
  }

  // ---------------------------------------------------------------- one timer per key

  /** What a reader of the gate's documentation would build: processed events and one deadline per key. */
  datatype Timer = Timer(processed: map<string, Time>, deadlines: map<string, Time>, startup: Option<Time>)

  datatype Decision = NotConsulted(reason: Ignorance) | Stopped(policy: nat, key: string) | LetThrough(policy: nat, key: string, failed: bool)

  function DecisionOf(outcome: Outcome): Decision {
    match outcome
    case Ignored(reason) => NotConsulted(reason)
    case Blocked(policy, key, _) => Stopped(policy, key)
    case Processed(policy, _, key, failed) => LetThrough(policy, key, failed)
  }

  /** The minimum time between two remediations of one key. */
  function Period(limits: Limits): Time {
    if limits.eventsPerMinute > 0 then Max(5, limits.cooldownMinutes) * MINUTE else 5 * MINUTE
  }

  function TimerStep(t: Timer, a: Action, limits: string -> Limits): (Timer, Option<Decision>) {
    match a
    case OnEvent(event, s, r) =>
      (match IgnoredBecause(t.processed, t.startup, event, s)
       case Some(reason) => (t, Some(NotConsulted(reason)))
       case None =>
         var index := FirstMatch(event, s.policies.value).value;
         var key := KeyFor(event, s.policies.value[index], s.cluster);
         var (next, decision) := TimerJudged(t, EventKey(event), key, index, limits(key), s.processingFails, r.objectCheck);
         (next, Some(decision)))
    case Maintain(processedAt, _) => (t.(processed := CleanedProcessed(t.processed, PROCESSED_EVENT_AGE, processedAt)), None)
    case Restart(at, restored) => (TimerStarted(at, restored, limits), None)
  }

  /** A key that is past its deadline is let through and gets the next one. */
  function TimerJudged(t: Timer, eventKey: string, key: string, index: nat, limits: Limits, fails: bool, now: Time): (Timer, Decision) {
    if BlockedUntil(t.deadlines, key, now) then (t, Stopped(index, key))
    else (t.(processed := t.processed[eventKey := now], deadlines := t.deadlines[key := now + Period(limits)]),
          LetThrough(index, key, fails))
  }

  /** A restored end is a deadline, unless the key's policy limits nothing. */
  function TimerStarted(at: Time, restored: map<string, Time>, limits: string -> Limits): Timer {
    Timer(map[], map key | key in restored && !limits(key).Unlimited() :: restored[key], Some(at))
  }

  function TimerTrace(t: Timer, actions: seq<Action>, limits: string -> Limits): (trace: seq<Option<Decision>>)
    ensures |trace| == |actions|
    decreases |actions|
  {
    if |actions| == 0 then []
    else var (next, decision) := TimerStep(t, actions[0], limits); [decision] + TimerTrace(next, actions[1..], limits)
  }

  /** One clock reading per reconcile, and every listed policy has the settings that `limits` gives its key. */
  predicate Steady(a: Action, limits: string -> Limits) {
    a.OnEvent? ==>
      && a.r == Readings(a.r.objectCheck, a.r.objectCheck, a.r.objectCheck, a.r.objectCheck, a.r.objectCheck)
      && (a.s.policies.Some? ==> forall i | 0 <= i < |a.s.policies.value| ::
            limits(KeyFor(a.event, a.s.policies.value[i], a.s.cluster)) == LimitsOf(a.s.policies.value[i]))
  }

  predicate GateBlocks(gate: Gate, limits: Limits, key: string, now: Time) {
    BlockedUntil(gate.objects, key, now) || (!limits.Unlimited() && BlockedUntil(gate.cooldowns, key, now))
  }

  ghost predicate Simulates(p: Process, t: Timer, limits: string -> Limits, clock: Time) {
    && p.startup == t.startup && p.gate.processed == t.processed && WindowIdle(p.gate, clock)
    && SameBlocks(p.gate, t.deadlines, limits, clock)
  }

  /** From `clock` on, the gate and the deadlines block the same keys. */
  ghost predicate SameBlocks(gate: Gate, deadlines: map<string, Time>, limits: string -> Limits, clock: Time) {
    forall key, now | now >= clock :: GateBlocks(gate, limits(key), key, now) == BlockedUntil(deadlines, key, now)
  }

  lemma StartedSimulates(at: Time, restored: map<string, Time>, limits: string -> Limits)
    ensures Simulates(Started(at, restored), TimerStarted(at, restored, limits), limits, at)
  {
  }

  /** Once let through, a key is blocked for exactly its period and every other key as before. */
  lemma AdmissionBlocks(gate: Gate, eventKey: string, key: string, limits: Limits, at: Time, k: string, limitsOfK: Limits, now: Time)
    requires !GateBlocks(gate, limits, key, at) && now >= at && (k == key ==> limitsOfK == limits)
    ensures var after := Admitted(gate, eventKey, key, limits, Readings(at, at, at, at, at));
            GateBlocks(after, limitsOfK, k, now) == if k == key then now < at + Period(limits) else GateBlocks(gate, limitsOfK, k, now)
  {
  }

  lemma JudgedSimulates(gate: Gate, t: Timer, limits: string -> Limits, clock: Time, eventKey: string, key: string, index: nat,
                        selector: Option<nat>, fails: bool, at: Time)
    requires gate.processed == t.processed && WindowIdle(gate, clock) && SameBlocks(gate, t.deadlines, limits, clock) && clock <= at
    ensures var (after, outcome) := Judged(gate, eventKey, key, index, selector, limits(key), fails, Readings(at, at, at, at, at));
            var (next, decision) := TimerJudged(t, eventKey, key, index, limits(key), fails, at);
            after.processed == next.processed && SameBlocks(after, next.deadlines, limits, at) && DecisionOf(outcome) == decision
            && next.startup == t.startup
  {
    var r := Readings(at, at, at, at, at);
    WindowIdleJudged(gate, clock, eventKey, key, index, selector, limits(key), fails, r);
    assert GateBlocks(gate, limits(key), key, at) == BlockedUntil(t.deadlines, key, at);
    if !BlockedUntil(t.deadlines, key, at) {
      AdmissionSameBlocks(gate, t.deadlines, limits, clock, eventKey, key, at);
    }
  }

  lemma AdmissionSameBlocks(gate: Gate, deadlines: map<string, Time>, limits: string -> Limits, clock: Time, eventKey: string,
                            key: string, at: Time)
    requires SameBlocks(gate, deadlines, limits, clock) && clock <= at && !BlockedUntil(deadlines, key, at)
    ensures SameBlocks(Admitted(gate, eventKey, key, limits(key), Readings(at, at, at, at, at)),
                       deadlines[key := at + Period(limits(key))], limits, at)
  {
    assert GateBlocks(gate, limits(key), key, at) == BlockedUntil(deadlines, key, at);
    forall k, now | now >= at
      ensures GateBlocks(Admitted(gate, eventKey, key, limits(key), Readings(at, at, at, at, at)), limits(k), k, now)
              == BlockedUntil(deadlines[key := at + Period(limits(key))], k, now)
    {
      assert GateBlocks(gate, limits(k), k, now) == BlockedUntil(deadlines, k, now);
      AdmissionBlocks(gate, eventKey, key, limits(key), at, k, limits(k), now);
    }
  }

  lemma EventSimulates(p: Process, t: Timer, limits: string -> Limits, a: Action, clock: Time)
    requires Simulates(p, t, limits, clock) && TimedAfter(clock, a) && Steady(a, limits) && a.OnEvent?
    ensures Simulates(Step(p, a).0, TimerStep(t, a, limits).0, limits, LastReading(a))
    ensures TimerStep(t, a, limits).1 == Some(DecisionOf(Step(p, a).1.value))
  {
    WindowIdleStep(p, a, clock);
    var judged, key, index, selector, keyLimits := JudgedOrIgnored(p.gate, p.startup, a.event, a.s, a.r);
    if judged {
      assert keyLimits == limits(key);
      JudgedSimulates(p.gate, t, limits, clock, EventKey(a.event), key, index, selector, a.s.processingFails, a.r.objectCheck);
    }
  }

  lemma TimerSimulates(p: Process, t: Timer, limits: string -> Limits, a: Action, clock: Time)
    requires Simulates(p, t, limits, clock) && TimedAfter(clock, a) && Steady(a, limits)
    ensures Simulates(Step(p, a).0, TimerStep(t, a, limits).0, limits, LastReading(a))
    ensures match Step(p, a).1
            case Some(outcome) => TimerStep(t, a, limits).1 == Some(DecisionOf(outcome))
            case None => TimerStep(t, a, limits).1 == None
  {
    WindowIdleStep(p, a, clock);
    match a
    case OnEvent(_, _, _) =>
      EventSimulates(p, t, limits, a, clock);
    case Maintain(processedAt, objectsAt) =>
      forall k, later | later >= objectsAt
        ensures GateBlocks(Step(p, a).0.gate, limits(k), k, later) == BlockedUntil(t.deadlines, k, later)
      {
        assert GateBlocks(p.gate, limits(k), k, later) == BlockedUntil(t.deadlines, k, later);
      }
    case Restart(at, restored) =>
      StartedSimulates(at, restored, limits);
  }

  lemma {:induction false} TimerDecides(p: Process, t: Timer, limits: string -> Limits, actions: seq<Action>, clock: Time, i: nat)
    requires Simulates(p, t, limits, clock) && Timed(clock, actions) && i < |actions|
    requires forall a | a in actions :: Steady(a, limits)
    ensures match Trace(p, actions)[i]
            case Some(outcome) => TimerTrace(t, actions, limits)[i] == Some(DecisionOf(outcome))
            case None => TimerTrace(t, actions, limits)[i] == None
    decreases |actions|
  {
    TimerSimulates(p, t, limits, actions[0], clock);
    if i > 0 {
      TimerDecides(Step(p, actions[0]).0, TimerStep(t, actions[0], limits).0, limits, actions[1..], LastReading(actions[0]), i - 1);
    }
  }

  /**
    Object cooldown, window, policy cooldown and cleanups together decide every event of every
    run, across restarts, exactly as one last-admission timer per key.
   */
  lemma GateRefinesTimer(at: Time, restored: map<string, Time>, limits: string -> Limits, actions: seq<Action>, i: nat)
    requires Timed(at, actions) && i < |actions|
    requires forall a | a in actions :: Steady(a, limits)
    ensures match Trace(Started(at, restored), actions)[i]
            case Some(outcome) => TimerTrace(TimerStarted(at, restored, limits), actions, limits)[i] == Some(DecisionOf(outcome))
            case None => TimerTrace(TimerStarted(at, restored, limits), actions, limits)[i] == None
  {
    StartedSimulates(at, restored, limits);
    TimerDecides(Started(at, restored), TimerStarted(at, restored, limits), limits, actions, at, i);
  }
}
