/** The rate limiter on its own: how many checks of one key it lets pass per minute. */
module SlidingWindow {
  import opened Basics
  import opened EventGate

  /** One call of the rate limiter. */
  datatype Check = Check(key: string, limits: Limits, now: Time)

  /** When the checks of `key` passed, after those already in `history`. */
  function History(gate: Gate, checks: seq<Check>, key: string, history: seq<Time>): seq<Time>
    decreases |checks|
  {
    if |checks| == 0 then history
    else
      var c := checks[0];
      History(AfterRateCheck(gate, c.key, c.limits, c.now), checks[1..], key,
              if c.key == key && RateVerdict(gate, key, c.limits, c.now).Pass? then history + [c.now] else history)
  }

  predicate Timed(clock: Time, checks: seq<Check>)
    decreases |checks|
  {
    |checks| == 0 || (clock <= checks[0].now && Timed(checks[0].now, checks[1..]))
  }

  /** How many of the times lie in the minute that starts at `from`. */
  function CountInMinute(times: seq<Time>, from: Time): nat {
    if |times| == 0 then 0
    else CountInMinute(times[..|times| - 1], from) + if from <= times[|times| - 1] < from + MINUTE then 1 else 0
  }

  predicate Sorted(times: seq<Time>) {
    forall i, j | 0 <= i < j < |times| :: times[i] <= times[j]
  }

  /** Any `n + 1` successive times span a minute or more. */
  predicate Spread(times: seq<Time>, n: nat) {
    forall i, j | 0 <= i && j == i + n < |times| :: times[j] - times[i] >= MINUTE
  }

  predicate Apart(times: seq<Time>, gap: Time) {
    forall i, j | 0 <= i && j == i + 1 < |times| :: times[j] - times[i] >= gap
  }

  // ---------------------------------------------------------------- counting

  lemma {:induction false} CountAtMostTail(times: seq<Time>, from: Time, n: nat)
    requires forall i | 0 <= i < |times| - n :: times[i] < from
    ensures CountInMinute(times, from) <= n
  {
    if |times| > 0 {
      if n > 0 {
        CountAtMostTail(times[..|times| - 1], from, n - 1);
      } else {
        CountAtMostTail(times[..|times| - 1], from, 0);
      }
    }
  }

  lemma {:induction false} SpreadBoundsCount(times: seq<Time>, from: Time, n: nat)
    requires Sorted(times) && Spread(times, n) && n > 0
    ensures CountInMinute(times, from) <= n
  {
    if |times| > 0 {
      var last := |times| - 1;
      if from <= times[last] < from + MINUTE {
        forall i | 0 <= i < |times| - n
          ensures times[i] < from
        {
          assert times[last] - times[last - n] >= MINUTE;
        }
        CountAtMostTail(times, from, n);
      } else {
        SpreadBoundsCount(times[..last], from, n);
      }
    }
  }

  // ---------------------------------------------------------------- what the limiter tracks

  /** The stored list is the tail of the history that was recent at the last admission. */
  predicate Tracks(history: seq<Time>, stored: seq<Time>) {
    && |stored| <= |history| && stored == history[|history| - |stored|..]
    && forall i | 0 <= i < |history| - |stored| :: history[i] <= history[|history| - 1] - MINUTE
  }

  /** The window of one key against the history of its admissions. */
  predicate WindowInvariant(stored: seq<Time>, n: int, history: seq<Time>, clock: Time) {
    && n > 0 && Sorted(history) && Tracks(history, stored) && Spread(history, n)
    && (|history| > 0 ==> history[|history| - 1] <= clock)
  }

  /** The cooldown of one key against the history of its admissions. */
  predicate CooldownInvariant(cooldown: Option<Time>, gap: Time, history: seq<Time>) {
    Apart(history, gap) && (|history| > 0 ==> cooldown == Some(history[|history| - 1] + gap))
  }

  function CooldownOf(gate: Gate, key: string): Option<Time> {
    if key in gate.cooldowns then Some(gate.cooldowns[key]) else None
  }

  /** `kept` is the tail of the times that an admission at `now` keeps. */
  predicate TailSince(times: seq<Time>, kept: seq<Time>, now: Time) {
    && |kept| <= |times| && kept == times[|times| - |kept|..]
    && forall i | 0 <= i < |times| - |kept| :: times[i] <= now - MINUTE
  }

  lemma {:induction false} RecentKeepsAll(times: seq<Time>, now: Time)
    requires forall i | 0 <= i < |times| :: times[i] > now - MINUTE
    ensures Recent(times, now) == times
  {
    if |times| > 0 {
      RecentKeepsAll(times[1..], now);
    }
  }

  lemma TailAfterOld(times: seq<Time>, kept: seq<Time>, now: Time)
    requires |times| > 0 && times[0] <= now - MINUTE && TailSince(times[1..], kept, now)
    ensures TailSince(times, kept, now)
  {
    assert times[1..][|times| - 1 - |kept|..] == times[|times| - |kept|..];
    forall i | 0 < i < |times| - |kept|
      ensures times[i] <= now - MINUTE
    {
      assert times[i] == times[1..][i - 1];
    }
  }

  /** On a sorted list, keeping the recent times drops a prefix. */
  lemma {:induction false} RecentIsTail(times: seq<Time>, now: Time)
    requires Sorted(times)
    ensures TailSince(times, Recent(times, now), now)
  {
    if |times| > 0 {
      if times[0] > now - MINUTE {
        RecentKeepsAll(times, now);
      } else {
        RecentIsTail(times[1..], now);
        TailAfterOld(times, Recent(times[1..], now), now);
      }
    }
  }

  /** What an admission drops from the tail of the history lies a minute or more back. */
  lemma KeptIsTail(stored: seq<Time>, history: seq<Time>, now: Time)
    requires Sorted(history) && Tracks(history, stored) && (|history| > 0 ==> history[|history| - 1] <= now)
    ensures TailSince(history, Recent(stored, now), now)
  {
    var kept := Recent(stored, now);
    assert Sorted(stored);
    RecentIsTail(stored, now);
    assert kept == history[|history| - |kept|..];
    forall i | 0 <= i < |history| - |kept|
      ensures history[i] <= now - MINUTE
    {
      if i >= |history| - |stored| {
        assert history[i] == stored[i - (|history| - |stored|)];
      }
    }
  }

  /** One more time spreads the history if fewer than `n` earlier ones are recent. */
  lemma SpreadOneMore(history: seq<Time>, n: nat, kept: nat, now: Time)
    requires Spread(history, n) && kept < n && kept <= |history|
    requires forall i | 0 <= i < |history| - kept :: history[i] <= now - MINUTE
    ensures Spread(history + [now], n)
  {
    var next := history + [now];
    forall i, j | 0 <= i && j == i + n < |next|
      ensures next[j] - next[i] >= MINUTE
    {
      if j < |history| {
        assert history[j] - history[i] >= MINUTE;
      }
    }
  }

  lemma AdmissionKeepsWindow(stored: seq<Time>, n: int, history: seq<Time>, clock: Time, now: Time)
    requires WindowInvariant(stored, n, history, clock) && clock <= now && |Recent(stored, now)| < n
    ensures WindowInvariant(Recent(stored, now) + [now], n, history + [now], now)
  {
    KeptIsTail(stored, history, now);
    WindowOneMore(Recent(stored, now), n, history, now);
  }

  lemma WindowOneMore(kept: seq<Time>, n: nat, history: seq<Time>, now: Time)
    requires Sorted(history) && Spread(history, n) && (|history| > 0 ==> history[|history| - 1] <= now)
    requires |kept| < n && TailSince(history, kept, now)
    ensures WindowInvariant(kept + [now], n, history + [now], now)
  {
    SpreadOneMore(history, n, |kept|, now);
    TracksOneMore(history, kept, now);
    assert Sorted(history + [now]);
  }

  lemma TracksOneMore(history: seq<Time>, kept: seq<Time>, now: Time)
    requires TailSince(history, kept, now)
    ensures Tracks(history + [now], kept + [now])
  {
    var next := history + [now];
    assert kept + [now] == next[|next| - |kept| - 1..];
  }

  lemma AdmissionKeepsCooldown(cooldown: Option<Time>, gap: Time, history: seq<Time>, now: Time)
    requires CooldownInvariant(cooldown, gap, history) && (cooldown.Some? ==> now >= cooldown.value)
    ensures CooldownInvariant(Some(now + gap), gap, history + [now])
  {
  }

  /** A check changes what is held for a key only when it lets that key pass. */
  lemma CheckEffect(gate: Gate, c: Check, key: string)
    ensures var after := AfterRateCheck(gate, c.key, c.limits, c.now);
            var stored := Times(gate.window, key);
            if c.key == key && c.limits.eventsPerMinute > 0 && RateVerdict(gate, key, c.limits, c.now).Pass? then
              && |Recent(stored, c.now)| < c.limits.eventsPerMinute
              && Times(after.window, key) == Recent(stored, c.now) + [c.now]
              && (CooldownOf(gate, key).Some? ==> c.now >= CooldownOf(gate, key).value)
              && (c.limits.cooldownMinutes > 0 ==> CooldownOf(after, key) == Some(c.now + c.limits.cooldownMinutes * MINUTE))
            else Times(after.window, key) == stored && CooldownOf(after, key) == CooldownOf(gate, key)
  {
  }

  lemma {:induction false} WindowOverRun(gate: Gate, checks: seq<Check>, key: string, limits: Limits, history: seq<Time>, clock: Time)
    returns (stored: seq<Time>, end: Time)
    requires WindowInvariant(Times(gate.window, key), limits.eventsPerMinute, history, clock) && Timed(clock, checks)
    requires forall c | c in checks && c.key == key :: c.limits == limits
    ensures WindowInvariant(stored, limits.eventsPerMinute, History(gate, checks, key, history), end)
    decreases |checks|
  {
    if |checks| == 0 {
      return Times(gate.window, key), clock;
    }
    var c := checks[0];
    var next := AfterRateCheck(gate, c.key, c.limits, c.now);
    CheckEffect(gate, c, key);
    if c.key == key && RateVerdict(gate, key, c.limits, c.now).Pass? {
      AdmissionKeepsWindow(Times(gate.window, key), limits.eventsPerMinute, history, clock, c.now);
      stored, end := WindowOverRun(next, checks[1..], key, limits, history + [c.now], c.now);
    } else {
      stored, end := WindowOverRun(next, checks[1..], key, limits, history, c.now);
    }
  }

  lemma {:induction false} CooldownOverRun(gate: Gate, checks: seq<Check>, key: string, limits: Limits, history: seq<Time>)
    returns (cooldown: Option<Time>)
    requires SetsCooldown(limits)
    requires CooldownInvariant(CooldownOf(gate, key), limits.cooldownMinutes * MINUTE, history)
    requires forall c | c in checks && c.key == key :: c.limits == limits
    ensures CooldownInvariant(cooldown, limits.cooldownMinutes * MINUTE, History(gate, checks, key, history))
    decreases |checks|
  {
    if |checks| == 0 {
      return CooldownOf(gate, key);
    }
    var c := checks[0];
    var next := AfterRateCheck(gate, c.key, c.limits, c.now);
    CheckEffect(gate, c, key);
    if c.key == key && RateVerdict(gate, key, c.limits, c.now).Pass? {
      AdmissionKeepsCooldown(CooldownOf(gate, key), limits.cooldownMinutes * MINUTE, history, c.now);
      cooldown := CooldownOverRun(next, checks[1..], key, limits, history + [c.now]);
    } else {
      cooldown := CooldownOverRun(next, checks[1..], key, limits, history);
    }
  }

  /**
    With N events per minute, every half-open minute of every run of checks, of this key and of
    others, lets at most N checks of the key pass.
   */
  lemma RateLimitHolds(checks: seq<Check>, clock: Time, key: string, limits: Limits, from: Time)
    requires limits.eventsPerMinute > 0 && Timed(clock, checks)
    requires forall c | c in checks && c.key == key :: c.limits == limits
    ensures CountInMinute(History(EMPTY_GATE, checks, key, []), from) <= limits.eventsPerMinute
  {
    var _, _ := WindowOverRun(EMPTY_GATE, checks, key, limits, [], clock);
    SpreadBoundsCount(History(EMPTY_GATE, checks, key, []), from, limits.eventsPerMinute);
  }

  /** With a cooldown, successive passes of a key are at least that far apart. */
  lemma CooldownHolds(checks: seq<Check>, key: string, limits: Limits)
    requires SetsCooldown(limits)
    requires forall c | c in checks && c.key == key :: c.limits == limits
    ensures Apart(History(EMPTY_GATE, checks, key, []), limits.cooldownMinutes * MINUTE)
  {
    var _ := CooldownOverRun(EMPTY_GATE, checks, key, limits, []);
  }

  /** All checks of the key come with these settings. */
  predicate Under(checks: seq<Check>, key: string, limits: Limits) {
    forall c | c in checks && c.key == key :: c.limits == limits
  }

  /** In every run from an empty gate, the key's passes are as far apart as its cooldown setting asks. */
  ghost predicate CooldownKept(key: string, limits: Limits, clock: Time) {
    forall checks | Timed(clock, checks) && Under(checks, key, limits) ::
      Apart(History(EMPTY_GATE, checks, key, []), limits.cooldownMinutes * MINUTE)
  }

  /** A cooldown setting is kept exactly if the events per minute are limited as well. */
  lemma CooldownKeptIff(key: string, limits: Limits, clock: Time)
    requires limits.cooldownMinutes > 0
    ensures CooldownKept(key, limits, clock) <==> limits.eventsPerMinute > 0
  {
    if limits.eventsPerMinute > 0 {
      forall checks | Timed(clock, checks) && Under(checks, key, limits)
        ensures Apart(History(EMPTY_GATE, checks, key, []), limits.cooldownMinutes * MINUTE)
      {
        CooldownHolds(checks, key, limits);
      }
    } else {
      TwoPassesAtOnce(key, limits, clock);
      var passes := [clock, clock];
      assert passes[1] - passes[0] < limits.cooldownMinutes * MINUTE;
      assert !Apart(passes, limits.cooldownMinutes * MINUTE);
    }
  }

  /** Without a limit on the events per minute, two checks at the same time both pass. */
  lemma TwoPassesAtOnce(key: string, limits: Limits, clock: Time)
    requires limits.eventsPerMinute <= 0
    ensures var checks := [Check(key, limits, clock), Check(key, limits, clock)];
            Timed(clock, checks) && Under(checks, key, limits) && History(EMPTY_GATE, checks, key, []) == [clock, clock]
  {
    var c := Check(key, limits, clock);
    assert [c, c] == [c] + [c] && [c] == [c] + [] && [] + [clock] == [clock] && [clock] + [clock] == [clock, clock];
    PassLeavesNoTrace(key, limits, clock, [c], []);
    PassLeavesNoTrace(key, limits, clock, [], [clock]);
  }

  lemma PassLeavesNoTrace(key: string, limits: Limits, clock: Time, rest: seq<Check>, history: seq<Time>)
    requires limits.eventsPerMinute <= 0
    ensures History(EMPTY_GATE, [Check(key, limits, clock)] + rest, key, history) == History(EMPTY_GATE, rest, key, history + [clock])
  {
    assert ([Check(key, limits, clock)] + rest)[1..] == rest;
  }
}
