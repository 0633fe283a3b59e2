/**
  The fixed-window exception rate limiter. Counters live in a TTL-capable cache
  modelled as a map from cache key to a counter with an expiry instant; the
  wall clock is an explicit `now` (seconds). A counter is live while
  `now < expiresAt`; an expired or absent counter reads as 0.
 */
module RateLimiter {

  const KeyPrefix: string := "notion_exception_rate_limit:"
  const TtlSeconds: int := 60
  const GlobalFingerprint: string := "global"
  /** `PHP_INT_MAX` on a 64-bit build. */
  const PhpIntMax: int := 0x7FFF_FFFF_FFFF_FFFF

  datatype Config = Config(enabled: bool, maxPerMinute: int)

  datatype Counter = Counter(count: int, expiresAt: int)

  type Store = map<string, Counter>

  /** The outcome of one admission check: the verdict and the cache afterwards. */
  datatype Check = Check(allowed: bool, store: Store)

  /** A sequence of checks on one fingerprint: the verdicts in order and the final cache. */
  datatype Run = Run(verdicts: seq<bool>, store: Store)

  predicate Live(store: Store, key: string, now: int) {
    key in store && now < store[key].expiresAt
  }

  /** The cache differs from `before` at most under `key`. */
  ghost predicate OnlyKeyChanged(before: Store, after: Store, key: string) {
    forall k :: k != key ==> (k in after <==> k in before) && (k in after ==> after[k] == before[k])
  }

  function Max(a: int, b: int): int {
    if a >= b then a else b
  }

  function Min(a: int, b: int): int {
    if a <= b then a else b
  }

  /** The cache key of a fingerprint: the fixed prefix followed by the fingerprint. */
  function CacheKey(fingerprint: string): (key: string)
    ensures |key| == |KeyPrefix| + |fingerprint|
    ensures key[..|KeyPrefix|] == KeyPrefix && key[|KeyPrefix|..] == fingerprint
  {
    KeyPrefix + fingerprint
  }

  /** Distinct fingerprints never share a counter. */
  lemma CacheKeyInjective(a: string, b: string)
    requires CacheKey(a) == CacheKey(b)
    ensures a == b
  {
    assert a == CacheKey(a)[|KeyPrefix|..];
  }

  /** `cache->get($key) ?? 0`. */
  function CurrentCount(store: Store, key: string, now: int): (c: int)
    ensures Live(store, key, now) ==> c == store[key].count
    ensures !Live(store, key, now) ==> c == 0
  {
    if Live(store, key, now) then store[key].count else 0
  }

  /**
    `put($key, 1, 60)` when the key is absent, `increment($key)` otherwise.
    An increment keeps the expiry of the live counter.
   */
  function Increment(store: Store, key: string, now: int): (s: Store)
    ensures CurrentCount(s, key, now) == CurrentCount(store, key, now) + 1
    ensures !Live(store, key, now) ==> s[key] == Counter(1, now + TtlSeconds)
    ensures Live(store, key, now) ==> key in s && s[key].expiresAt == store[key].expiresAt
    ensures OnlyKeyChanged(store, s, key)
  {
    if !Live(store, key, now) then store[key := Counter(1, now + TtlSeconds)]
    else store[key := store[key].(count := store[key].count + 1)]
  }

  /** The read-compare-increment both public checks share. */
  function CheckKey(config: Config, store: Store, key: string, now: int): (r: Check)
    ensures !config.enabled ==> r == Check(true, store)
    ensures config.enabled && CurrentCount(store, key, now) >= config.maxPerMinute ==> r == Check(false, store)
    ensures config.enabled && CurrentCount(store, key, now) < config.maxPerMinute ==>
              r.allowed && CurrentCount(r.store, key, now) == CurrentCount(store, key, now) + 1
    ensures OnlyKeyChanged(store, r.store, key)
  {
    if !config.enabled then Check(true, store)
    else if CurrentCount(store, key, now) >= config.maxPerMinute then Check(false, store)
    else Check(true, Increment(store, key, now))
  }

  /** `shouldAllow($fingerprint)`. */
  function ShouldAllow(config: Config, store: Store, fingerprint: string, now: int): (r: Check)
    ensures !config.enabled ==> r == Check(true, store)
    ensures config.enabled ==>
              (r.allowed <==> CurrentCount(store, CacheKey(fingerprint), now) < config.maxPerMinute)
    ensures !r.allowed ==> r.store == store
    ensures r.allowed && config.enabled ==>
              CurrentCount(r.store, CacheKey(fingerprint), now) == CurrentCount(store, CacheKey(fingerprint), now) + 1
    ensures OnlyKeyChanged(store, r.store, CacheKey(fingerprint))
  {
    CheckKey(config, store, CacheKey(fingerprint), now)
  }

  /** `shouldAllowGlobal()`: the same check on the counter of the fingerprint "global". */
  function ShouldAllowGlobal(config: Config, store: Store, now: int): (r: Check)
    ensures r == ShouldAllow(config, store, GlobalFingerprint, now)
    ensures OnlyKeyChanged(store, r.store, CacheKey(GlobalFingerprint))
  {
    CheckKey(config, store, CacheKey(GlobalFingerprint), now)
  }

  /** No live counter exceeds `max`. */
  ghost predicate WithinLimit(store: Store, now: int, max: int) {
    forall k :: Live(store, k, now) ==> store[k].count <= max
  }

  /** A check never pushes a counter above the maximum once all counters are within it. */
  lemma CheckKeepsWithinLimit(config: Config, store: Store, fingerprint: string, now: int)
    requires config.enabled && WithinLimit(store, now, config.maxPerMinute)
    ensures WithinLimit(ShouldAllow(config, store, fingerprint, now).store, now, config.maxPerMinute)
  {
    var key := CacheKey(fingerprint);
    var after := ShouldAllow(config, store, fingerprint, now).store;
    forall k | Live(after, k, now)
      ensures after[k].count <= config.maxPerMinute
    {
      if k == key && after != store {
        assert CurrentCount(after, key, now) == CurrentCount(store, key, now) + 1;
      }
    }
  }

  /** Counters only expire as time passes: the bound keeps holding later. */
  lemma WithinLimitLater(store: Store, now: int, later: int, max: int)
    requires now <= later && WithinLimit(store, now, max)
    ensures WithinLimit(store, later, max)
  {
  }

  /** `n` consecutive `shouldAllow` calls on one fingerprint at the instant `now`. */
  function Repeat(config: Config, store: Store, fingerprint: string, now: int, n: nat): (r: Run)
    ensures |r.verdicts| == n
    decreases n
  {
    if n == 0 then Run([], store)
    else
      var first := ShouldAllow(config, store, fingerprint, now);
      var rest := Repeat(config, first.store, fingerprint, now, n - 1);
      Run([first.allowed] + rest.verdicts, rest.store)
  }

  /**
    Starting from a count `c`, the i-th of `n` checks is allowed exactly when
    `c + i < max`, and the counter ends at `min(max, c + n)` (or stays at `c`
    when it already reached the maximum).
   */
  lemma {:induction false} RepeatCounts(config: Config, store: Store, fingerprint: string, now: int, n: nat)
    requires config.enabled
    ensures var c := CurrentCount(store, CacheKey(fingerprint), now);
            var r := Repeat(config, store, fingerprint, now, n);
            && (forall i :: 0 <= i < n ==> r.verdicts[i] == (c + i < config.maxPerMinute))
            && CurrentCount(r.store, CacheKey(fingerprint), now)
               == (if c < config.maxPerMinute then Min(config.maxPerMinute, c + n) else c)
    decreases n
  {
    if n > 0 {
      var key := CacheKey(fingerprint);
      var c := CurrentCount(store, key, now);
      var first := ShouldAllow(config, store, fingerprint, now);
      RepeatCounts(config, first.store, fingerprint, now, n - 1);
      var r := Repeat(config, store, fingerprint, now, n);
      var rest := Repeat(config, first.store, fingerprint, now, n - 1);
      assert r.verdicts == [first.allowed] + rest.verdicts;
      forall i | 0 <= i < n
        ensures r.verdicts[i] == (c + i < config.maxPerMinute)
      {
        if i > 0 {
          assert r.verdicts[i] == rest.verdicts[i - 1];
        }
      }
    }
  }

  /** With maximum N and an empty cache, the first N checks pass and the (N+1)-th is refused. */
  lemma FirstNAllowedThenDenied(config: Config, fingerprint: string, now: int)
    requires config.enabled && config.maxPerMinute >= 0
    ensures var r := Repeat(config, map[], fingerprint, now, config.maxPerMinute + 1);
            && (forall i :: 0 <= i < config.maxPerMinute ==> r.verdicts[i])
            && !r.verdicts[config.maxPerMinute]
  {
    RepeatCounts(config, map[], fingerprint, now, config.maxPerMinute + 1);
  }

  /** Checks on one fingerprint leave every other fingerprint's counter as it was. */
  lemma {:induction false} RepeatIndependent(config: Config, store: Store, fingerprint: string, other: string, now: int, n: nat)
    requires other != fingerprint
    ensures var after := Repeat(config, store, fingerprint, now, n).store;
            CurrentCount(after, CacheKey(other), now) == CurrentCount(store, CacheKey(other), now)
    decreases n
  {
    if n > 0 {
      if CacheKey(other) == CacheKey(fingerprint) {
        CacheKeyInjective(other, fingerprint);
      }
      RepeatIndependent(config, ShouldAllow(config, store, fingerprint, now).store, fingerprint, other, now, n - 1);
    }
  }

  /** `getRemainingAttempts($fingerprint)`; it reads the cache and changes nothing. */
  function RemainingAttempts(config: Config, store: Store, fingerprint: string, now: int): (r: int)
    ensures !config.enabled ==> r == PhpIntMax
    ensures config.enabled ==> r >= 0 && r >= config.maxPerMinute - CurrentCount(store, CacheKey(fingerprint), now)
    ensures config.enabled ==> r <= Max(0, config.maxPerMinute - CurrentCount(store, CacheKey(fingerprint), now))
    ensures config.enabled ==> (r > 0 <==> ShouldAllow(config, store, fingerprint, now).allowed)
  {
    if !config.enabled then PhpIntMax
    else Max(0, config.maxPerMinute - CurrentCount(store, CacheKey(fingerprint), now))
  }

  /** After k admissions from an empty cache the remaining quota is max(0, N - k). */
  lemma RemainingAfterChecks(config: Config, fingerprint: string, now: int, k: nat)
    requires config.enabled && config.maxPerMinute >= 0
    ensures RemainingAttempts(config, Repeat(config, map[], fingerprint, now, k).store, fingerprint, now)
            == Max(0, config.maxPerMinute - k)
  {
    RepeatCounts(config, map[], fingerprint, now, k);
  }

  /** `clear($fingerprint)`: forgets that fingerprint's counter and nothing else. */
  function Clear(store: Store, fingerprint: string): (s: Store)
    ensures CacheKey(fingerprint) !in s
    ensures OnlyKeyChanged(store, s, CacheKey(fingerprint))
  {
    store - {CacheKey(fingerprint)}
  }

  /** After `clear` the next check on that fingerprint passes whenever the maximum is at least 1. */
  lemma ClearThenAllowed(config: Config, store: Store, fingerprint: string, now: int)
    requires config.maxPerMinute >= 1
    ensures ShouldAllow(config, Clear(store, fingerprint), fingerprint, now).allowed
  {
  }

  /**
    `clearAll()`: forgets only the global counter; fingerprint counters are
    left to expire on their own.
   */
  function ClearAll(store: Store): (s: Store)
    ensures CacheKey(GlobalFingerprint) !in s
    ensures OnlyKeyChanged(store, s, CacheKey(GlobalFingerprint))
  {
    store - {CacheKey(GlobalFingerprint)}
  }

  /** `clearAll` leaves the counter of every fingerprint other than "global" unchanged. */
  lemma ClearAllKeepsFingerprintCounts(store: Store, fingerprint: string, now: int)
    requires fingerprint != GlobalFingerprint
    ensures CurrentCount(ClearAll(store), CacheKey(fingerprint), now) == CurrentCount(store, CacheKey(fingerprint), now)
  {
    if CacheKey(fingerprint) == CacheKey(GlobalFingerprint) {
      CacheKeyInjective(fingerprint, GlobalFingerprint);
    }
  }

  /**
    A counter created by a check expires 60 seconds later: from then on the
    fingerprint's window starts afresh (absent further increments).
   */
  lemma WindowExpires(config: Config, store: Store, fingerprint: string, now: int, later: int)
    requires config.enabled && !Live(store, CacheKey(fingerprint), now)
    requires later >= now + TtlSeconds
    ensures CurrentCount(ShouldAllow(config, store, fingerprint, now).store, CacheKey(fingerprint), later) == 0
  {
  }
}
