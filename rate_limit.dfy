/**
  The rate-limit decision engine: it classifies an identifier as an API token
  or an IP address, resolves the identifier's request limit and block
  duration (a per-identifier override first, otherwise the token or IP
  default), reads the identifier's count from the store and, when the count
  is below the limit, records the request by incrementing it.
 */
module RateLimit {
  import opened Wrappers
  import opened Config
  import opened Storage
  import opened Numbers

  predicate IsAlphanumeric(c: char)
  {
    'a' <= c <= 'z' || 'A' <= c <= 'Z' || '0' <= c <= '9'
  }

  /** `isToken`: whether the identifier matches `^[a-zA-Z0-9]*$`, so the empty identifier is a token. */
  function IsToken(identifier: string): (r: bool)
    ensures r <==> forall i :: 0 <= i < |identifier| ==> IsAlphanumeric(identifier[i])
  {
    identifier == [] || (IsAlphanumeric(identifier[0]) && IsToken(identifier[1..]))
  }

  /**
    `getMaxReqPerSec`: the identifier's override when it has one, whatever
    its form; otherwise the token default for identifiers made only of
    letters and digits and the IP default for all others.
   */
  function GetMaxReqPerSec(identifier: string, config: Config): (r: int)
    ensures identifier in config.customMaxReqPerSec ==> r == config.customMaxReqPerSec[identifier]
    ensures identifier !in config.customMaxReqPerSec && (forall i :: 0 <= i < |identifier| ==> IsAlphanumeric(identifier[i]))
      ==> r == config.defaultTokenMaxReqPerSec
    ensures identifier !in config.customMaxReqPerSec && (exists i :: 0 <= i < |identifier| && !IsAlphanumeric(identifier[i]))
      ==> r == config.defaultIPMaxReqPerSec
  {
    if identifier in config.customMaxReqPerSec then config.customMaxReqPerSec[identifier]
    else if IsToken(identifier) then config.defaultTokenMaxReqPerSec
    else config.defaultIPMaxReqPerSec
  }

  /** `getBlockDuration`: the same rule as `GetMaxReqPerSec`, over the block-duration override map. */
  function GetBlockDuration(identifier: string, config: Config): (r: Duration)
    ensures identifier in config.customBlockDuration ==> r == config.customBlockDuration[identifier]
    ensures identifier !in config.customBlockDuration && (forall i :: 0 <= i < |identifier| ==> IsAlphanumeric(identifier[i]))
      ==> r == config.defaultTokenBlockDuration
    ensures identifier !in config.customBlockDuration && (exists i :: 0 <= i < |identifier| && !IsAlphanumeric(identifier[i]))
      ==> r == config.defaultIPBlockDuration
  {
    if identifier in config.customBlockDuration then config.customBlockDuration[identifier]
    else if IsToken(identifier) then config.defaultTokenBlockDuration
    else config.defaultIPBlockDuration
  }

  /**
    The limit and the block duration are resolved independently: neither
    depends on the other's override map.
   */
  lemma PoliciesIndependent(identifier: string, config: Config, limits: map<string, int>, durations: map<string, Duration>)
    ensures GetMaxReqPerSec(identifier, config.(customBlockDuration := durations)) == GetMaxReqPerSec(identifier, config)
    ensures GetBlockDuration(identifier, config.(customMaxReqPerSec := limits)) == GetBlockDuration(identifier, config)
  {
  }

  /**
    One `IsLimitExceeded` call against a store that does not fail: whether
    the identifier is over its limit, and the counts afterwards.
   */
  function Decide(counts: map<string, int>, identifier: string, config: Config): (bool, map<string, int>)
  {
    var count := CountOf(counts, identifier);
    if count >= GetMaxReqPerSec(identifier, config) then (true, counts)
    else (false, counts[identifier := count + 1])
  }

  /** The verdicts of `k` consecutive calls for the same identifier. */
  function Verdicts(counts: map<string, int>, identifier: string, config: Config, k: nat): seq<bool>
    decreases k
  {
    if k == 0 then []
    else
      var (exceeded, next) := Decide(counts, identifier, config);
      [exceeded] + Verdicts(next, identifier, config, k - 1)
  }

  /** The counts after `k` consecutive calls for the same identifier. */
  function CountsAfter(counts: map<string, int>, identifier: string, config: Config, k: nat): map<string, int>
    decreases k
  {
    if k == 0 then counts
    else CountsAfter(Decide(counts, identifier, config).1, identifier, config, k - 1)
  }

  /**
    With limit N and starting count c, call j (from 0) is refused exactly
    when c + j >= N: the first N - c calls pass and every later one is
    refused. The count rises by one per passing call and then stays put,
    and no other identifier's count changes.
   */
  lemma {:induction false} RepeatedCalls(counts: map<string, int>, identifier: string, config: Config, k: nat)
    decreases k
    ensures var n, c := GetMaxReqPerSec(identifier, config), CountOf(counts, identifier);
      && |Verdicts(counts, identifier, config, k)| == k
      && (forall j :: 0 <= j < k ==> Verdicts(counts, identifier, config, k)[j] == (c + j >= n))
      && CountOf(CountsAfter(counts, identifier, config, k), identifier) == (if c >= n then c else Min(c + k, n))
      && CountsAfter(counts, identifier, config, k) - {identifier} == counts - {identifier}
  {
    if k > 0 {
      var n, c := GetMaxReqPerSec(identifier, config), CountOf(counts, identifier);
      var next := Decide(counts, identifier, config).1;
      RepeatedCalls(next, identifier, config, k - 1);
      var vs := Verdicts(counts, identifier, config, k);
      assert vs == [c >= n] + Verdicts(next, identifier, config, k - 1);
      assert forall j :: 1 <= j < k ==> vs[j] == Verdicts(next, identifier, config, k - 1)[j - 1];
      assert next - {identifier} == counts - {identifier};
    }
  }

  function Min(a: int, b: int): int { if a <= b then a else b }

  /**
    A fresh identifier with limit N >= 0 gets exactly N passes and is then
    refused; its count after k calls is min(k, N).
   */
  lemma FreshIdentifier(counts: map<string, int>, identifier: string, config: Config, k: nat)
    requires CountOf(counts, identifier) == 0
    requires GetMaxReqPerSec(identifier, config) >= 0
    ensures var n := GetMaxReqPerSec(identifier, config);
      && |Verdicts(counts, identifier, config, k)| == k
      && (forall j :: 0 <= j < k ==> Verdicts(counts, identifier, config, k)[j] == (j >= n))
      && CountOf(CountsAfter(counts, identifier, config, k), identifier) == Min(k, n)
  {
    RepeatedCalls(counts, identifier, config, k);
  }

  /** A count that starts at or below the limit never rises above it. */
  lemma NeverAboveLimit(counts: map<string, int>, identifier: string, config: Config, k: nat)
    requires CountOf(counts, identifier) <= GetMaxReqPerSec(identifier, config)
    ensures CountOf(CountsAfter(counts, identifier, config, k), identifier) <= GetMaxReqPerSec(identifier, config)
  {
    RepeatedCalls(counts, identifier, config, k);
  }

  /**
    After the store drops an identifier's count (its window expired), the
    identifier is treated exactly as one never seen.
   */
  lemma ExpiredIsFresh(counts: map<string, int>, identifier: string, config: Config, k: nat)
    ensures Verdicts(counts - {identifier}, identifier, config, k) == Verdicts(map[], identifier, config, k)
  {
    RepeatedCalls(counts - {identifier}, identifier, config, k);
    RepeatedCalls(map[], identifier, config, k);
  }

  /** Tokens are made of letters and digits only, and the empty identifier is one. */
  lemma TokenExamples()
    ensures IsToken("") && IsToken("abc123")
  {
  }

  /** Addresses contain `.` or `:` and so are not tokens. */
  lemma AddressExamples()
    ensures !IsToken("127.0.0.1") && !IsToken("::1")
  {
    assert !IsAlphanumeric("127.0.0.1"[3]);
    assert !IsAlphanumeric("::1"[0]);
  }

  /** `RateLimit`: the engine, holding the configuration and the counter store. */
  class RateLimit {
    const config: Config
    const store: MemoryStore

    /** `NewRateLimit`. */
    constructor (config: Config, store: MemoryStore)
      ensures this.config == config && this.store == store
    {
      this.config := config;
      this.store := store;
    }

    /**
      `IsLimitExceeded`: reads the identifier's count, then, only when it is
      below the resolved limit, increments it with the resolved block
      duration. A refused request changes nothing; a store failure is
      reported as an error and never as "exceeded".
     */
    method IsLimitExceeded(identifier: string) returns (exceeded: bool, err: Option<StorageError>)
      modifies store`counts, store`expiries
      ensures exceeded ==> err == None
      ensures store.failGet ==>
        && !exceeded && err == Some(StorageError)
        && store.counts == old(store.counts) && store.expiries == old(store.expiries)
      ensures !store.failGet && CountOf(old(store.counts), identifier) >= GetMaxReqPerSec(identifier, config) ==>
        && exceeded && err == None
        && store.counts == old(store.counts) && store.expiries == old(store.expiries)
      ensures !store.failGet && store.failIncrement && CountOf(old(store.counts), identifier) < GetMaxReqPerSec(identifier, config) ==>
        && !exceeded && err == Some(StorageError)
        && store.counts == old(store.counts) && store.expiries == old(store.expiries)
      ensures !store.failGet && !store.failIncrement && CountOf(old(store.counts), identifier) < GetMaxReqPerSec(identifier, config) ==>
        var count := CountOf(old(store.counts), identifier) + 1;
        && !exceeded && err == None
        && store.counts == old(store.counts)[identifier := count]
        && store.expiries == if count == 1 then old(store.expiries)[identifier := GetBlockDuration(identifier, config)]
                             else old(store.expiries)
      ensures !store.failGet && !store.failIncrement ==>
        (exceeded, store.counts) == Decide(old(store.counts), identifier, config)
    {
      var currentCount, e := store.GetRequestCount(identifier);
      if e.Some? {
        return false, e;
      }

      var maxReqPerSec := GetMaxReqPerSec(identifier, config);
      var blockDuration := GetBlockDuration(identifier, config);

      if currentCount >= maxReqPerSec {
        return true, None;
      }

      var _, e' := store.IncrementRequestCount(identifier, blockDuration);
      if e'.Some? {
        return false, e';
      }
      return false, None;
    }
  }

  /** The configuration of the rate limiter's unit test. */
  function TestConfig(): Config
  {
    Config("", "", 0, 5, 10, Minute, 2 * Minute, map["testToken" := 1], map[])
  }

  /** Case "IP NotExceeded": count 4 under the IP default of 5 passes, and the count becomes 5. */
  method TestIPNotExceeded() returns (exceeded: bool, err: Option<StorageError>, count: int)
    ensures !exceeded && err == None && count == 5
  {
    var mockStore := new MemoryStore();
    var rl := new RateLimit(TestConfig(), mockStore);
    assert !IsAlphanumeric("192.168.1.1"[3]);
    mockStore.counts := mockStore.counts["192.168.1.1" := 4];
    exceeded, err := rl.IsLimitExceeded("192.168.1.1");
    count := mockStore.counts["192.168.1.1"];
  }

  /** Case "IP Exceeded": count 5 under the IP default of 5 is refused, and the count stays 5. */
  method TestIPExceeded() returns (exceeded: bool, err: Option<StorageError>, count: int)
    ensures exceeded && err == None && count == 5
  {
    var mockStore := new MemoryStore();
    var rl := new RateLimit(TestConfig(), mockStore);
    assert !IsAlphanumeric("192.168.1.1"[3]);
    mockStore.counts := mockStore.counts["192.168.1.1" := 5];
    exceeded, err := rl.IsLimitExceeded("192.168.1.1");
    count := mockStore.counts["192.168.1.1"];
  }

  /** Case "Token NotExceeded": `testToken` has an override of 1, so count 0 passes and becomes 1. */
  method TestTokenNotExceeded() returns (exceeded: bool, err: Option<StorageError>, count: int)
    ensures !exceeded && err == None && count == 1
  {
    var mockStore := new MemoryStore();
    var rl := new RateLimit(TestConfig(), mockStore);
    mockStore.counts := mockStore.counts["testToken" := 0];
    exceeded, err := rl.IsLimitExceeded("testToken");
    count := mockStore.counts["testToken"];
  }

  /** Case "Token Exceeded": count 1 is refused under the override of 1, although the token default is 10. */
  method TestTokenExceeded() returns (exceeded: bool, err: Option<StorageError>, count: int)
    ensures exceeded && err == None && count == 1
  {
    var mockStore := new MemoryStore();
    var rl := new RateLimit(TestConfig(), mockStore);
    mockStore.counts := mockStore.counts["testToken" := 1];
    exceeded, err := rl.IsLimitExceeded("testToken");
    count := mockStore.counts["testToken"];
  }

  /**
    Case "StorageError": the store fails every call, so the request is
    reported as an error, not as exceeded, and its count stays 0.
   */
  method TestStorageError() returns (exceeded: bool, err: Option<StorageError>, count: int)
    ensures !exceeded && err.Some? && count == 0
  {
    var mockStore := new MemoryStore();
    var rl := new RateLimit(TestConfig(), mockStore);
    mockStore.counts := mockStore.counts["errorToken" := 0];
    mockStore.failGet, mockStore.failIncrement := true, true;
    exceeded, err := rl.IsLimitExceeded("errorToken");
    count := mockStore.counts["errorToken"];
  }

  /**
    The fixed-window scenario: an address with the IP default of 5 passes
    five times and is refused the sixth time; once its window expires it
    passes again.
   */
  lemma IPScenario(config: Config, counts: map<string, int>)
    requires config.defaultIPMaxReqPerSec == 5 && "203.0.113.9" !in config.customMaxReqPerSec
    requires "203.0.113.9" !in counts
    ensures Verdicts(counts, "203.0.113.9", config, 6) == [false, false, false, false, false, true]
    ensures Verdicts(CountsAfter(counts, "203.0.113.9", config, 6) - {"203.0.113.9"}, "203.0.113.9", config, 1) == [false]
  {
    var id := "203.0.113.9";
    assert !IsAlphanumeric(id[3]);
    FreshIdentifier(counts, id, config, 6);
    var after := CountsAfter(counts, id, config, 6);
    FreshIdentifier(after - {id}, id, config, 1);
  }

  /** An override governs even where the token default would allow more: a limit of 1 allows one call. */
  lemma OverrideScenario(config: Config, counts: map<string, int>)
    requires config.customMaxReqPerSec == map["abc123" := 1] && config.defaultTokenMaxReqPerSec == 10
    requires "abc123" !in counts
    ensures Verdicts(counts, "abc123", config, 2) == [false, true]
  {
    FreshIdentifier(counts, "abc123", config, 2);
  }
}
