/** Waiting longer before each retry: the doubling loop, the power form, and the jitter around them. */
module Backoff {
  import opened Basics

  const TWO_TO_THE_62 := 0x4000_0000_0000_0000
  const TWO_TO_THE_64 := 0x1_0000_0000_0000_0000

  /** Arithmetic on durations wraps around at 64 bits. */
  function Int64(x: int): int {
    (x + TWO_TO_THE_64 / 2) % TWO_TO_THE_64 - TWO_TO_THE_64 / 2
  }

  lemma Int64Wraps(x: int)
    ensures -0x8000_0000_0000_0000 <= Int64(x) < 0x8000_0000_0000_0000 && (Int64(x) - x) % 0x1_0000_0000_0000_0000 == 0
  {
  }

  lemma Int64Small(x: int)
    requires 0 <= x < 2 * TWO_TO_THE_62
    ensures Int64(x) == x
  {
  }

  function PowerOfTwo(n: nat): (p: nat)
    ensures p >= 1
  {
    if n == 0 then 1 else 2 * PowerOfTwo(n - 1)
  }

  /** The wait before the given attempt, apart from the jitter: doubling from the initial wait up to the cap. */
  function Capped(initial: nat, max: nat, attempt: nat): nat
    requires attempt >= 1
  {
    Min(initial * PowerOfTwo(attempt - 1), max)
  }

  lemma {:induction false} PowerGrows(n: nat, m: nat)
    requires n <= m
    ensures PowerOfTwo(n) <= PowerOfTwo(m)
    decreases m
  {
    if n < m {
      PowerGrows(n, m - 1);
    }
  }

  /** Later attempts never wait less. */
  lemma CappedMonotone(initial: nat, max: nat, attempt: nat, later: nat)
    requires 1 <= attempt <= later
    ensures Capped(initial, max, attempt) <= Capped(initial, max, later) <= max
  {
    PowerGrows(attempt - 1, later - 1);
    ScaleMonotone(initial, PowerOfTwo(attempt - 1), PowerOfTwo(later - 1));
  }

  lemma ScaleMonotone(x: nat, p: nat, q: nat)
    requires p <= q
    ensures x * p <= x * q
  {
  }

  lemma DoubledPower(initial: nat, n: nat)
    ensures initial * PowerOfTwo(n + 1) == 2 * (initial * PowerOfTwo(n))
  {
  }

  /** The wait that the doubling loop computes: a first attempt is not capped yet. */
  function Doubled(initial: nat, max: nat, attempt: int): nat {
    if attempt <= 1 then initial else Capped(initial, max, attempt)
  }

  /** Below the cap to begin with, the loop computes the capped power for every attempt. */
  lemma DoubledIsCapped(initial: nat, max: nat, attempt: nat)
    requires initial <= max && attempt >= 1
    ensures Doubled(initial, max, attempt) == Capped(initial, max, attempt)
  {
  }

  /** Settings for which no doubling leaves the 64-bit range. */
  predicate Sane(initial: int, max: int) {
    0 <= initial < TWO_TO_THE_62 && 0 <= max < TWO_TO_THE_62
  }

  /** Doubling in 64 bits with an early stop. */
  method DoubleUpTo(initial: int, max: int, attempt: int) returns (backoff: int)
    ensures 0 <= initial < TWO_TO_THE_62 && 0 <= max < TWO_TO_THE_62 ==> backoff == Doubled(initial, max, attempt)
    ensures attempt <= 1 ==> backoff == initial
  {
    ghost var sane := Sane(initial, max);
    backoff := initial;
    var i := 1;
    while i < attempt
      invariant 1 <= i <= Max(attempt, 1)
      invariant i == 1 ==> backoff == initial
      invariant sane ==> backoff == initial * PowerOfTwo(i - 1) && 0 <= backoff && (i > 1 ==> backoff <= max)
    {
      if sane {
        DoubledPower(initial, i - 1);
        Int64Small(backoff * 2);
      }
      backoff := Int64(backoff * 2);
      if backoff > max {
        if sane {
          PowerGrows(i, attempt - 1);
          ScaleMonotone(initial, PowerOfTwo(i), PowerOfTwo(attempt - 1));
        }
        backoff := max;
        break;
      }
      i := i + 1;
    }
  }

  // ---------------------------------------------------------------- jitter

  /** A quarter up or down, for a random number `u` from zero up to but without one; conversion truncates. */
  function Jittered(backoff: nat, u: real): nat
    requires 0.0 <= u < 1.0
  {
    JitterNonNegative(backoff, u);
    (backoff as real * (0.75 + u / 2.0)).Floor
  }

  lemma JitterNonNegative(backoff: nat, u: real)
    requires 0.0 <= u < 1.0
    ensures 0.0 <= backoff as real * (0.75 + u / 2.0)
  {
  }

  /** The random factor written as the code does. */
  lemma JitterAsWritten(backoff: nat, u: real)
    ensures backoff as real + backoff as real * 0.25 * (u * 2.0 - 1.0) == backoff as real * (0.75 + u / 2.0)
  {
  }

  lemma ScaleReal(x: real, p: real, q: real)
    requires 0.0 <= x && p <= q
    ensures x * p <= x * q
  {
  }

  lemma JitterBounds(backoff: nat, u: real)
    requires 0.0 <= u < 1.0
    ensures 3 * backoff / 4 <= Jittered(backoff, u) <= 5 * backoff / 4
  {
    var b := backoff as real;
    var x := b * (0.75 + u / 2.0);
    ScaleReal(b, 0.75, 0.75 + u / 2.0);
    ScaleReal(b, 0.75 + u / 2.0, 1.25);
    FloorBounds(backoff, x);
  }

  lemma FloorBounds(backoff: nat, x: real)
    requires backoff as real * 0.75 <= x <= backoff as real * 1.25
    ensures 3 * backoff / 4 <= x.Floor <= 5 * backoff / 4
  {
    var low := 3 * backoff / 4;
    assert low as real * 4.0 <= 3.0 * backoff as real;
    assert 4.0 * x.Floor as real <= 5.0 * backoff as real;
  }

  /** `math.Pow(2, n)`. */
  function RealPower(n: nat): real {
    if n == 0 then 1.0 else 2.0 * RealPower(n - 1)
  }

  lemma {:induction false} RealPowerIsPower(n: nat)
    ensures RealPower(n) == PowerOfTwo(n) as real
  {
    if n > 0 {
      RealPowerIsPower(n - 1);
    }
  }

  /** The capped power as a real number. */
  function PowerWait(initial: nat, max: nat, attempt: nat): real
    requires attempt >= 1
  {
    var backoff := initial as real * RealPower(attempt - 1);
    if backoff > max as real then max as real else backoff
  }

  lemma CappedInReals(initial: nat, max: nat, attempt: nat)
    requires attempt >= 1
    ensures PowerWait(initial, max, attempt) == Capped(initial, max, attempt) as real
  {
    RealPowerIsPower(attempt - 1);
    assert initial as real * PowerOfTwo(attempt - 1) as real == (initial * PowerOfTwo(attempt - 1)) as real;
  }

  /** Conversion to a duration cuts off towards zero. */
  function ToDuration(x: real): int {
    if x >= 0.0 then x.Floor else -(-x).Floor
  }

  function WithJitter(backoff: real, u: real): int {
    ToDuration(backoff + backoff * 0.25 * (u * 2.0 - 1.0))
  }

  lemma AddedJitter(backoff: real, base: nat, u: real)
    requires 0.0 <= u < 1.0 && backoff == base as real
    ensures WithJitter(backoff, u) == Jittered(base, u)
  {
    JitterAsWritten(base, u);
    JitterNonNegative(base, u);
  }

  /** The knowledge client's wait: the loop, the jitter, and the cap once more. */
  method CalculateBackoff(initial: int, max: int, attempt: int, u: real) returns (backoff: int)
    requires 0.0 <= u < 1.0
    ensures backoff <= max
    ensures 0 <= initial < TWO_TO_THE_62 && 0 <= max < TWO_TO_THE_62 ==>
              var doubled := Doubled(initial, max, attempt);
              backoff == Min(Jittered(doubled, u), max) && Min(3 * doubled / 4, max) <= backoff
  {
    backoff := DoubleUpTo(initial, max, attempt);
    if Sane(initial, max) {
      AddedJitter(backoff as real, backoff, u);
      JitterBounds(backoff, u);
    }
    backoff := WithJitter(backoff as real, u);
    if backoff > max {
      backoff := max;
    }
  }

  /**
    The wait of the resource client and of the capability client: the power form, capped before the
    jitter and not after it, has the loop form's base.
   */
  function PowerBackoff(initial: nat, max: nat, attempt: nat, u: real): (backoff: int)
    requires attempt >= 1 && 0.0 <= u < 1.0
    ensures backoff == Jittered(Capped(initial, max, attempt), u)
    ensures 3 * Capped(initial, max, attempt) / 4 <= backoff <= 5 * Capped(initial, max, attempt) / 4
  {
    var backoff := PowerWait(initial, max, attempt);
    CappedInReals(initial, max, attempt);
    AddedJitter(backoff, Capped(initial, max, attempt), u);
    JitterBounds(Capped(initial, max, attempt), u);
    WithJitter(backoff, u)
  }

  /** Some random number takes the wait above the cap. */
  ghost predicate Overshoots(initial: nat, max: nat, attempt: nat)
    requires attempt >= 1
  {
    exists u: real :: 0.0 <= u < 1.0 && PowerBackoff(initial, max, attempt, u) > max
  }

  /** It can exceed the cap exactly when the wait before the jitter is more than four fifths of the cap and a nanosecond. */
  lemma PowerBackoffExceedsCap(initial: nat, max: nat, attempt: nat)
    requires attempt >= 1
    ensures Overshoots(initial, max, attempt) <==> 5 * Capped(initial, max, attempt) > 4 * (max + 1)
  {
    var base := Capped(initial, max, attempt);
    if 5 * base > 4 * (max + 1) {
      var u := FactorFor(base, max + 1);
      assert PowerBackoff(initial, max, attempt, u) > max;
    }
    forall u: real | 0.0 <= u < 1.0 && Jittered(base, u) > max
      ensures 5 * base > 4 * (max + 1)
    {
      StaysBelow(base, u, max + 1);
    }
  }

  // ---------------------------------------------------------------- the clients that use the power form

  /** A client retries at most `maxRetries` times. */
  datatype Client = Client(maxRetries: nat, initial: nat, max: nat)

  /** The retry settings of a capability scan, in seconds. */
  datatype RetryConfig = RetryConfig(maxAttempts: int, backoffSeconds: int, maxBackoffSeconds: int)

  function OrDefault(value: int, fallback: nat): nat {
    if value <= 0 then fallback else value
  }

  /** Settings that are not positive fall back to 3 retries, 5 seconds and 300 seconds. */
  function CapabilityClient(config: RetryConfig): Client {
    Client(OrDefault(config.maxAttempts, 3), OrDefault(config.backoffSeconds, 5) * SECOND,
           OrDefault(config.maxBackoffSeconds, 300) * SECOND)
  }

  /** Each setting counts if it is positive, else its default does. */
  lemma CapabilityDefaults(config: RetryConfig)
    ensures var c := CapabilityClient(config);
            && c.maxRetries == (if config.maxAttempts > 0 then config.maxAttempts else 3)
            && c.initial == (if config.backoffSeconds > 0 then config.backoffSeconds else 5) * 1_000_000_000
            && c.max == (if config.maxBackoffSeconds > 0 then config.maxBackoffSeconds else 300) * 1_000_000_000
  {
  }

  /** The resource client is always built with its defaults. */
  const RESOURCE_CLIENT := Client(3, SECOND, 30 * SECOND)

  /** One of the waits that the client can come to make exceeds its cap. */
  ghost predicate ClientOvershoots(c: Client) {
    exists attempt: nat :: 1 <= attempt <= c.maxRetries && Overshoots(c.initial, c.max, attempt)
  }

  /** A client can exceed its cap exactly if its last wait before the jitter comes that close to it. */
  lemma ClientOvershootsIff(c: Client)
    ensures ClientOvershoots(c) <==> c.maxRetries >= 1 && 5 * Capped(c.initial, c.max, c.maxRetries) > 4 * (c.max + 1)
  {
    if c.maxRetries >= 1 {
      PowerBackoffExceedsCap(c.initial, c.max, c.maxRetries);
    }
    forall attempt: nat | 1 <= attempt <= c.maxRetries && Overshoots(c.initial, c.max, attempt)
      ensures 5 * Capped(c.initial, c.max, c.maxRetries) > 4 * (c.max + 1)
    {
      PowerBackoffExceedsCap(c.initial, c.max, attempt);
      CappedMonotone(c.initial, c.max, attempt, c.maxRetries);
    }
  }

  lemma SmallPowers()
    ensures PowerOfTwo(0) == 1 && PowerOfTwo(1) == 2 && PowerOfTwo(2) == 4
  {
  }

  /** A scan that starts at 300 seconds, the default cap: its first retry may wait 360. */
  lemma CapabilityClientExample()
    ensures CapabilityClient(RetryConfig(3, 300, 300)) == Client(3, 300 * SECOND, 300 * SECOND)
    ensures PowerBackoff(300 * SECOND, 300 * SECOND, 1, 0.9) == 360 * SECOND
    ensures ClientOvershoots(CapabilityClient(RetryConfig(3, 300, 300)))
  {
    SmallPowers();
    assert Jittered(300 * SECOND, 0.9) == 360 * SECOND;
    ClientOvershootsIff(CapabilityClient(RetryConfig(3, 300, 300)));
  }

  /** No retry of the resource client waits longer than five seconds, so its cap of 30 is never in play. */
  lemma ResourceClientStaysBelowCap(attempt: nat, u: real)
    requires 1 <= attempt <= RESOURCE_CLIENT.maxRetries && 0.0 <= u < 1.0
    ensures RESOURCE_CLIENT.maxRetries == 3 && RESOURCE_CLIENT.initial == SECOND && RESOURCE_CLIENT.max == 30 * SECOND
    ensures PowerBackoff(RESOURCE_CLIENT.initial, RESOURCE_CLIENT.max, attempt, u) <= 5 * SECOND < RESOURCE_CLIENT.max
    ensures !ClientOvershoots(RESOURCE_CLIENT)
  {
    SmallPowers();
    CappedMonotone(RESOURCE_CLIENT.initial, RESOURCE_CLIENT.max, attempt, 3);
    assert Capped(SECOND, 30 * SECOND, 3) == 4 * SECOND;
    ClientOvershootsIff(RESOURCE_CLIENT);
  }

  /** A random number that lifts the wait to the limit. */
  lemma FactorFor(base: nat, limit: nat) returns (u: real)
    requires 5 * base > 4 * limit
    ensures 0.0 <= u < 1.0 && Jittered(base, u) >= limit
  {
    var q := limit as real / base as real;
    assert q * base as real == limit as real;
    BelowFiveFourths(base as real, limit as real, q);
    u := if q <= 0.75 then 0.0 else 2.0 * q - 1.5;
    ScaleReal(base as real, q, 0.75 + u / 2.0);
  }

  lemma BelowFiveFourths(base: real, limit: real, q: real)
    requires 5.0 * base > 4.0 * limit && q * base == limit && base > 0.0
    ensures q < 1.25
  {
    if q >= 1.25 {
      ScaleReal(base, 1.25, q);
      assert false;
    }
  }

  lemma StaysBelow(base: nat, u: real, limit: nat)
    requires 0.0 <= u < 1.0 && Jittered(base, u) >= limit > 0
    ensures 5 * base > 4 * limit
  {
    ZeroJitter(u);
    FactorStaysBelow(base, 0.75 + u / 2.0, limit);
  }

  lemma ZeroJitter(u: real)
    requires 0.0 <= u < 1.0
    ensures Jittered(0, u) == 0
  {
  }

  lemma FactorStaysBelow(base: nat, factor: real, limit: nat)
    requires base > 0 && factor < 1.25 && limit as real <= base as real * factor
    ensures 5 * base > 4 * limit
  {
    StrictlyBelow(base as real, factor, 1.25);
    assert limit as real < base as real * 1.25;
    assert (4 * limit) as real < (5 * base) as real;
  }

  lemma StrictlyBelow(x: real, p: real, q: real)
    requires 0.0 < x && p < q
    ensures x * p < x * q
  {
  }

  // ---------------------------------------------------------------- retries

  /** What attempt number i meets: its answer, and whether the caller gave up while waiting for it or after it. */
  datatype Attempt = Attempt(succeeds: bool, cancelledWaiting: bool, cancelledAfter: bool)

  /** All attempts before the n-th failed and nobody gave up, so the n-th is made. */
  ghost predicate Made(attempts: nat -> Attempt, maxRetries: int, n: nat) {
    && n <= maxRetries
    && (forall i: nat | i < n :: !attempts(i).succeeds && !attempts(i).cancelledAfter)
    && (forall i: nat | 1 <= i <= n :: !attempts(i).cancelledWaiting)
  }

  /** Succeeds exactly when an attempt that is made succeeds, after at most the given retries. */
  method DoRequestWithRetry(attempts: nat -> Attempt, maxRetries: int) returns (ok: bool, made: nat)
    ensures ok <==> exists n: nat :: Made(attempts, maxRetries, n) && attempts(n).succeeds
    ensures made <= Max(maxRetries + 1, 0)
    ensures forall n: nat :: n < made <==> Made(attempts, maxRetries, n)
  {
    made := 0;
    while made <= maxRetries
      invariant made <= Max(maxRetries + 1, 0)
      invariant forall i: nat | i < made :: !attempts(i).succeeds && !attempts(i).cancelledAfter
      invariant forall i: nat | 1 <= i < made :: !attempts(i).cancelledWaiting
      decreases maxRetries - made
    {
      var n := made;
      if n > 0 && attempts(n).cancelledWaiting {
        return false, made;
      }
      made := made + 1;
      if attempts(n).succeeds {
        assert Made(attempts, maxRetries, n);
        return true, made;
      }
      if attempts(n).cancelledAfter {
        return false, made;
      }
    }
    return false, made;
  }

  /** The client makes no more requests than the scan's `maxAttempts`. */
  ghost predicate WithinSetting(config: RetryConfig, attempts: nat -> Attempt) {
    NoneMadeFrom(attempts, CapabilityClient(config).maxRetries, config.maxAttempts)
  }

  ghost predicate NoneMadeFrom(attempts: nat -> Attempt, maxRetries: int, first: int) {
    forall n: nat | n >= first :: !Made(attempts, maxRetries, n)
  }

  /** Something ends the requests before the retries are used up. */
  ghost predicate EndsEarly(attempts: nat -> Attempt, limit: nat) {
    || (exists i: nat :: i < limit && (attempts(i).succeeds || attempts(i).cancelledAfter))
    || (exists i: nat :: 1 <= i <= limit && attempts(i).cancelledWaiting)
  }

  /** The setting, which is to include the first request, limits the requests exactly if they end early anyway. */
  lemma WithinSettingIff(config: RetryConfig, attempts: nat -> Attempt)
    requires config.maxAttempts >= 1
    ensures WithinSetting(config, attempts) <==> EndsEarly(attempts, config.maxAttempts)
  {
    var limit: nat := config.maxAttempts;
    LastRetryMadeIff(attempts, limit);
    assert CapabilityClient(config).maxRetries == limit;
    assert NoneMadeFrom(attempts, limit, limit) ==> !Made(attempts, limit, limit);
  }

  lemma LastRetryMadeIff(attempts: nat -> Attempt, limit: nat)
    ensures Made(attempts, limit, limit) <==> !EndsEarly(attempts, limit)
  {
  }

  /** With a single attempt set and a server that always fails, two requests are made. */
  lemma SecondRequestExample()
    ensures Made(n => Attempt(false, false, false), CapabilityClient(RetryConfig(1, 5, 300)).maxRetries, 1)
  {
  }
}
