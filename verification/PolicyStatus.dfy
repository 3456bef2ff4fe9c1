/** The status of a policy, written by several routines under optimistic concurrency. */
module PolicyStatus {
  import opened Basics

  datatype Message = EventsProcessed(total: nat, mcpMessages: nat) | SelectorsReady(selectors: nat) | Text(text: string)

  datatype Condition = Condition(kind: string, status: bool, transition: Time, reason: string, message: Message)

  datatype Status = Status(total: nat, successful: nat, failed: nat, mcpMessages: nat, rateLimited: nat,
                           lastProcessed: Option<Time>, lastMessage: Option<Time>, lastRateLimited: Option<Time>,
                           conditions: seq<Condition>)

  const NO_STATUS := Status(0, 0, 0, 0, 0, None, None, None, [])
  const READY := "Ready"
  const HEALTHY := "NotificationsHealthy"

  /** One routine's change to the status it has just read. */
  datatype Change =
    | CountEvent(success: bool, mcpMessage: bool, messageAt: Time, now: Time)
    | Initialize(selectors: nat, now: Time)
    | CountRateLimited(now: Time)
    | SetHealth(error: Option<string>, now: Time)

  // ---------------------------------------------------------------- condition lists

  predicate UniqueKinds(conditions: seq<Condition>) {
    forall i, j | 0 <= i < j < |conditions| :: conditions[i].kind != conditions[j].kind
  }

  /** The position of the first condition of a kind. */
  function IndexOf(conditions: seq<Condition>, kind: string): (i: nat)
    ensures i <= |conditions| && (i < |conditions| ==> conditions[i].kind == kind)
    ensures forall j | 0 <= j < i :: conditions[j].kind != kind
  {
    if |conditions| == 0 || conditions[0].kind == kind then 0
    else
      var i := IndexOf(conditions[1..], kind);
      assert forall j | 0 < j < i + 1 :: conditions[j] == conditions[1..][j - 1];
      i + 1
  }

  /** The list with the first condition of that kind replaced, or the condition appended. */
  function WithCondition(conditions: seq<Condition>, c: Condition): seq<Condition> {
    var i := IndexOf(conditions, c.kind);
    if i < |conditions| then conditions[i := c] else conditions + [c]
  }

  /** An unchanged health status only gets a new message, so its transition time survives. */
  function WithHealth(conditions: seq<Condition>, c: Condition): seq<Condition> {
    var i := IndexOf(conditions, c.kind);
    if i < |conditions| && conditions[i].status == c.status
    then conditions[i := conditions[i].(message := c.message)] else WithCondition(conditions, c)
  }

  function HealthCondition(error: Option<string>, now: Time): Condition {
    match error
    case Some(text) => Condition(HEALTHY, false, now, "NotificationConfigurationError", Text(text))
    case None => Condition(HEALTHY, true, now, "NotificationsWorking", Text("Notifications are configured correctly"))
  }

  function Applied(s: Status, c: Change): Status {
    match c
    case CountEvent(success, mcpMessage, messageAt, now) =>
      var total := s.total + 1;
      var mcpMessages := if mcpMessage then s.mcpMessages + 1 else s.mcpMessages;
      s.(total := total,
         successful := if success then s.successful + 1 else s.successful,
         failed := if success then s.failed else s.failed + 1,
         mcpMessages := mcpMessages,
         lastProcessed := Some(now),
         lastMessage := if mcpMessage then Some(messageAt) else s.lastMessage,
         conditions := WithCondition(s.conditions, Condition(READY, true, now, "EventProcessed", EventsProcessed(total, mcpMessages))))
    case Initialize(selectors, now) =>
      NO_STATUS.(conditions := [Condition(READY, true, now, "PolicyInitialized", SelectorsReady(selectors))])
    case CountRateLimited(now) => s.(rateLimited := s.rateLimited + 1, lastRateLimited := Some(now))
    case SetHealth(error, now) => s.(conditions := WithHealth(s.conditions, HealthCondition(error, now)))
  }

  // ---------------------------------------------------------------- histories

  /** An accepted write; `mine` tells the routine under study from all other writers. */
  datatype Entry = Entry(change: Change, mine: bool)

  /** The status that a history of accepted writes leaves. */
  function Replayed(log: seq<Entry>): Status {
    if |log| == 0 then NO_STATUS else Applied(Replayed(log[..|log| - 1]), log[|log| - 1].change)
  }

  /** How many of the changes since the last initialization `wanted` selects. */
  function SinceInit(log: seq<Entry>, wanted: Change -> bool): nat {
    if |log| == 0 then 0
    else
      var last := log[|log| - 1].change;
      if last.Initialize? then 0
      else SinceInit(log[..|log| - 1], wanted) + if wanted(last) then 1 else 0
  }

  /** The Ready condition of a policy with counted events reports exactly the current counters. */
  predicate ReadyReportsCounters(s: Status) {
    s.total > 0 ==>
      exists i :: 0 <= i < |s.conditions| && s.conditions[i].kind == READY
                  && s.conditions[i].message == EventsProcessed(s.total, s.mcpMessages)
  }

  predicate Consistent(s: Status) {
    && s.total == s.successful + s.failed && s.mcpMessages <= s.total
    && UniqueKinds(s.conditions) && ReadyReportsCounters(s)
    && (s.lastProcessed.Some? <==> s.total > 0) && (s.lastMessage.Some? <==> s.mcpMessages > 0)
    && (s.lastRateLimited.Some? <==> s.rateLimited > 0)
  }

  lemma ConditionKept(conditions: seq<Condition>, c: Condition)
    requires UniqueKinds(conditions)
    ensures UniqueKinds(WithCondition(conditions, c)) && c in WithCondition(conditions, c)
    ensures forall d | d in conditions && d.kind != c.kind :: d in WithCondition(conditions, c)
  {
    var i := IndexOf(conditions, c.kind);
    var result := WithCondition(conditions, c);
    if i < |conditions| {
      assert result[i] == c;
    } else {
      assert result[|conditions|] == c;
    }
    forall d | d in conditions && d.kind != c.kind
      ensures d in result
    {
      var j :| 0 <= j < |conditions| && conditions[j] == d;
      assert result[j] == d;
    }
  }

  lemma HealthKept(conditions: seq<Condition>, c: Condition)
    requires UniqueKinds(conditions)
    ensures UniqueKinds(WithHealth(conditions, c))
    ensures forall d | d in conditions && d.kind != c.kind :: d in WithHealth(conditions, c)
  {
    var i := IndexOf(conditions, c.kind);
    if i < |conditions| && conditions[i].status == c.status {
      var result := WithHealth(conditions, c);
      forall d | d in conditions && d.kind != c.kind
        ensures d in result
      {
        var j :| 0 <= j < |conditions| && conditions[j] == d;
        assert result[j] == d;
      }
    } else {
      ConditionKept(conditions, c);
    }
  }

  lemma AppliedConsistent(s: Status, c: Change)
    requires Consistent(s)
    ensures Consistent(Applied(s, c))
  {
    var after := Applied(s, c);
    match c
    case CountEvent(success, mcpMessage, _, now) =>
      var ready := Condition(READY, true, now, "EventProcessed", EventsProcessed(after.total, after.mcpMessages));
      ConditionKept(s.conditions, ready);
      assert ready in after.conditions;
    case Initialize(_, _) =>
    case CountRateLimited(_) =>
    case SetHealth(error, now) =>
      HealthKept(s.conditions, HealthCondition(error, now));
      if s.total > 0 {
        var i :| 0 <= i < |s.conditions| && s.conditions[i].kind == READY
                 && s.conditions[i].message == EventsProcessed(s.total, s.mcpMessages);
        assert s.conditions[i] in after.conditions;
      }
  }

  predicate IsEvent(c: Change) {
    c.CountEvent?
  }

  predicate IsSuccess(c: Change) {
    c.CountEvent? && c.success
  }

  predicate IsFailure(c: Change) {
    c.CountEvent? && !c.success
  }

  predicate IsRateLimited(c: Change) {
    c.CountRateLimited?
  }

  predicate IsMcpMessage(c: Change) {
    c.CountEvent? && c.mcpMessage
  }

  /**
    Under every interleaving of the writers: the counters add up, the condition kinds stay unique,
    and the Ready condition reports the current counters.
   */
  lemma {:induction false} StatusConsistent(log: seq<Entry>)
    ensures Consistent(Replayed(log))
  {
    if |log| > 0 {
      StatusConsistent(log[..|log| - 1]);
      AppliedConsistent(Replayed(log[..|log| - 1]), log[|log| - 1].change);
    }
  }

  /** Each counter is the number of changes of its kind accepted since the last initialization. */
  lemma {:induction false} CountersTellHistory(log: seq<Entry>)
    ensures var s := Replayed(log);
            && s.total == SinceInit(log, IsEvent)
            && s.successful == SinceInit(log, IsSuccess)
            && s.failed == SinceInit(log, IsFailure)
            && s.mcpMessages == SinceInit(log, IsMcpMessage)
            && s.rateLimited == SinceInit(log, IsRateLimited)
  {
    if |log| > 0 {
      CountersTellHistory(log[..|log| - 1]);
    }
  }

  // ---------------------------------------------------------------- the stored object and its writers

  /** How an update call ends: accepted, refused for a stale version, or failed with its effect unknown. */
  datatype Answer = Accepted | Conflict | Failed

  class PolicyObject {
    var status: Status
    var version: nat
    ghost var log: seq<Entry>

    ghost predicate Valid()
      reads this
    {
      status == Replayed(log) && version == |log|
    }

    constructor ()
      ensures Valid() && log == []
    {
      status, version, log := NO_STATUS, 0, [];
    }

    /** Other writers get any number of changes accepted. */
    method Interfere(changes: seq<Change>)
      requires Valid()
      modifies this
      ensures Valid() && |log| == |old(log)| + |changes| && old(log) <= log
      ensures forall i | |old(log)| <= i < |log| :: log[i] == Entry(changes[i - |old(log)|], false)
    {
      for i := 0 to |changes|
        invariant Valid() && |log| == |old(log)| + i && old(log) <= log
        invariant forall j | |old(log)| <= j < |log| :: log[j] == Entry(changes[j - |old(log)|], false)
      {
        ghost var before := log;
        status, version, log := Applied(status, changes[i]), version + 1, log + [Entry(changes[i], false)];
        assert log[..|log| - 1] == before;
      }
    }

    /** The server takes an update only for the version it was made from; a failed call may still have counted. */
    method Update(ghost change: Change, updated: Status, from: nat, reachable: bool, lost: bool) returns (answer: Answer)
      requires Valid() && (from == version ==> updated == Applied(status, change))
      modifies this
      ensures Valid()
      ensures log == old(log) + (if from == old(version) && (reachable || lost) then [Entry(change, true)] else [])
      ensures answer == if !reachable then Failed else if from == old(version) then Accepted else Conflict
    {
      if from != version {
        return if reachable then Conflict else Failed;
      }
      if reachable || lost {
        status, version, log := updated, version + 1, log + [Entry(change, true)];
        assert log[..|log| - 1] == old(log);
      }
      return if reachable then Accepted else Failed;
    }
  }

  function CountMine(log: seq<Entry>): nat {
    if |log| == 0 then 0 else CountMine(log[..|log| - 1]) + if log[|log| - 1].mine then 1 else 0
  }

  lemma {:induction false} OthersNotMine(before: seq<Entry>, after: seq<Entry>)
    requires before <= after && forall i | |before| <= i < |after| :: !after[i].mine
    ensures CountMine(after) == CountMine(before)
  {
    if |after| > |before| {
      OthersNotMine(before, after[..|after| - 1]);
    } else {
      assert after == before;
    }
  }

  lemma MineCounted(before: seq<Entry>, change: Change)
    ensures CountMine(before + [Entry(change, true)]) == CountMine(before) + 1
  {
    assert (before + [Entry(change, true)])[..|before|] == before;
  }

  /** What the API server and the other writers do around one attempt. */
  datatype Attempt = Attempt(cancelled: bool, readFails: bool, before: seq<Change>, between: seq<Change>, reachable: bool, lost: bool,
                             messageAt: Time, now: Time)

  {
    /** The server answers with a success. */
    predicate Succeeds() {
      !readFails && between == [] && reachable
    }

    /** The server stores the update, whatever its answer. */
    predicate Lands() {
      !readFails && between == [] && (reachable || lost)
    }

    /** A failed read or a conflict with another writer calls for another attempt. */
    predicate IsRetried() {
      readFails || (between != [] && reachable)
    }
  }

  const MAX_RETRIES := 3

  /** Attempt `n` is made: all earlier ones call for another, and no wait was cancelled. */
  ghost predicate Made(attempts: seq<Attempt>, n: nat) {
    && n < |attempts| && (forall i | 0 <= i < n :: attempts[i].IsRetried()) && (forall i | 1 <= i <= n :: !attempts[i].cancelled)
  }

  method ReplaceCondition(conditions: seq<Condition>, c: Condition) returns (result: seq<Condition>)
    ensures result == WithCondition(conditions, c)
  {
    for i := 0 to |conditions|
      invariant forall j | 0 <= j < i :: conditions[j].kind != c.kind
    {
      if conditions[i].kind == c.kind {
        return conditions[i := c];
      }
    }
    result := conditions + [c];
  }

  method ReplaceHealth(conditions: seq<Condition>, c: Condition) returns (result: seq<Condition>)
    ensures result == WithHealth(conditions, c)
  {
    for i := 0 to |conditions|
      invariant forall j | 0 <= j < i :: conditions[j].kind != c.kind
    {
      if conditions[i].kind == c.kind {
        if conditions[i].status != c.status {
          return conditions[i := c];
        }
        return conditions[i := conditions[i].(message := c.message)];
      }
    }
    result := conditions + [c];
  }

  /** The status that `updatePolicyStatus` computes from a fresh copy. */
  method CountedEvent(read: Status, success: bool, mcpMessage: bool, messageAt: Time, now: Time) returns (updated: Status)
    ensures updated == Applied(read, CountEvent(success, mcpMessage, messageAt, now))
  {
    updated := read.(total := read.total + 1);
    if success {
      updated := updated.(successful := updated.successful + 1);
    } else {
      updated := updated.(failed := updated.failed + 1);
    }
    if mcpMessage {
      updated := updated.(mcpMessages := updated.mcpMessages + 1);
      updated := updated.(lastMessage := Some(messageAt));
    }
    updated := updated.(lastProcessed := Some(now));
    var ready := Condition("Ready", true, now, "EventProcessed", EventsProcessed(updated.total, updated.mcpMessages));
    var conditions := ReplaceCondition(updated.conditions, ready);
    updated := updated.(conditions := conditions);
  }

  /**
    Counts one event with up to four attempts. It succeeds exactly if an attempt that is made finds
    the server reachable and nobody else writing; whatever the other writers do, the event is
    counted once if an attempt that is made lands, even unanswered, and not at all otherwise.
   */
  method UpdatePolicyStatus(policy: PolicyObject, success: bool, mcpMessage: bool, attempts: seq<Attempt>) returns (ok: bool)
    requires policy.Valid() && |attempts| == 4
    modifies policy
    ensures policy.Valid() && old(policy.log) <= policy.log
    ensures ok <==> exists n: nat :: Made(attempts, n) && attempts[n].Succeeds()
    ensures CountMine(policy.log) == CountMine(old(policy.log)) + if exists n: nat :: Made(attempts, n) && attempts[n].Lands() then 1 else 0
    ensures forall n: nat | Made(attempts, n) && attempts[n].Lands() ::
              old(policy.log) < policy.log
              && policy.log[|policy.log| - 1] == Entry(CountEvent(success, mcpMessage, attempts[n].messageAt, attempts[n].now), true)
  {
    for attempt := 0 to MAX_RETRIES + 1
      invariant policy.Valid() && old(policy.log) <= policy.log
      invariant CountMine(policy.log) == CountMine(old(policy.log))
      invariant forall i | 0 <= i < attempt :: attempts[i].IsRetried() && (i >= 1 ==> !attempts[i].cancelled)
    {
      var a := attempts[attempt];
      if attempt > 0 && a.cancelled {
        return false;
      }
      assert Made(attempts, attempt);
      var answer := TryCount(policy, success, mcpMessage, a);
      match answer {
        case None => continue;
        case Some(Conflict) => continue;
        case Some(Failed) => return false;
        case Some(Accepted) => return true;
      }
    }
    return false;
  }

  /** One attempt: read, count, write back; without an answer if the read fails. */
  method TryCount(policy: PolicyObject, success: bool, mcpMessage: bool, a: Attempt) returns (answer: Option<Answer>)
    requires policy.Valid()
    modifies policy
    ensures policy.Valid() && old(policy.log) <= policy.log
    ensures answer == if a.readFails then None else if !a.reachable then Some(Failed) else if a.between == [] then Some(Accepted) else Some(Conflict)
    ensures CountMine(policy.log) == CountMine(old(policy.log)) + if a.Lands() then 1 else 0
    ensures a.Lands() ==> old(policy.log) < policy.log
                          && policy.log[|policy.log| - 1] == Entry(CountEvent(success, mcpMessage, a.messageAt, a.now), true)
  {
    ghost var start := policy.log;
    policy.Interfere(a.before);
    OthersNotMine(start, policy.log);
    if a.readFails {
      return None;
    }
    var read, from := policy.status, policy.version;
    var updated := CountedEvent(read, success, mcpMessage, a.messageAt, a.now);
    ghost var change := CountEvent(success, mcpMessage, a.messageAt, a.now);
    ghost var seen := policy.log;
    policy.Interfere(a.between);
    OthersNotMine(seen, policy.log);
    MineCounted(policy.log, change);
    assert from == policy.version <==> a.between == [];
    assert from == policy.version ==> policy.log == seen;
    ghost var last := policy.log;
    var reply := policy.Update(change, updated, from, a.reachable, a.lost);
    assert !a.Lands() ==> policy.log == last;
    return Some(reply);
  }

  /** The status that each of the three routines that try once computes from a fresh copy. */
  method Rewritten(read: Status, change: Change) returns (updated: Status)
    requires !change.CountEvent?
    ensures updated == Applied(read, change)
  {
    updated := read;
    match change {
      case Initialize(selectors, now) =>
        updated := Status(0, 0, 0, 0, 0, None, None, None, [Condition("Ready", true, now, "PolicyInitialized", SelectorsReady(selectors))]);
      case CountRateLimited(now) =>
        updated := read.(rateLimited := read.rateLimited + 1);
        updated := updated.(lastRateLimited := Some(now));
      case SetHealth(error, now) =>
        var health := Condition("NotificationsHealthy", true, now, "NotificationsWorking", Text("Notifications are configured correctly"));
        if error.Some? {
          health := health.(status := false, reason := "NotificationConfigurationError", message := Text(error.value));
        }
        var conditions := ReplaceHealth(read.conditions, health);
        updated := read.(conditions := conditions);
    }
  }

  /** Initialization, rate-limit count and notification health try once. */
  method WriteOnce(policy: PolicyObject, change: Change, a: Attempt) returns (ok: bool)
    requires policy.Valid() && !change.CountEvent?
    modifies policy
    ensures policy.Valid() && old(policy.log) <= policy.log && (ok <==> a.Succeeds())
    ensures CountMine(policy.log) == CountMine(old(policy.log)) + if a.Lands() then 1 else 0
    ensures a.Lands() ==> old(policy.log) < policy.log && policy.log[|policy.log| - 1] == Entry(change, true)
  {
    ghost var start := policy.log;
    policy.Interfere(a.before);
    OthersNotMine(start, policy.log);
    if a.readFails {
      return false;
    }
    var read, from := policy.status, policy.version;
    var updated := Rewritten(read, change);
    ghost var seen := policy.log;
    policy.Interfere(a.between);
    OthersNotMine(seen, policy.log);
    MineCounted(policy.log, change);
    assert from == policy.version <==> a.between == [];
    assert from == policy.version ==> policy.log == seen;
    ghost var last := policy.log;
    var answer := policy.Update(change, updated, from, a.reachable, a.lost);
    assert !a.Lands() ==> policy.log == last;
    return answer.Accepted?;
  }
}
