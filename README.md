# go-rate-limit: the decision engine and the override-list parser

This project models the core of a Go HTTP rate limiter. Each request is
charged to an identifier: the request's API token, or else its source IP.
The limiter decides whether that identifier has used up its requests for
the current window.

- **Classifier** (`RateLimit.IsToken`): an identifier made only of ASCII
  letters and digits is a token. This includes the empty identifier. Any
  other identifier is treated as an IP address.
- **Policy resolver** (`RateLimit.GetMaxReqPerSec`, `RateLimit.GetBlockDuration`):
  a per-identifier override wins if there is one. Otherwise the token or IP
  default applies. The limit and the block duration are resolved independently.
- **Decision** (`RateLimit.RateLimit.IsLimitExceeded`): the engine reads the
  identifier's count from the counter store. A count at or above the limit is
  refused without touching the store. Otherwise the count is incremented and
  the request passes. Store failures come back as errors.
- **Counter store** (`Storage.MemoryStore`): a class over a `map<string, int>`
  of counts. It follows the in-memory store of the limiter's tests. It can be
  told to fail its reads and its increments. It also keeps the Redis store's
  rule that only the increment that creates a count sets its expiry.
  `Expire` drops a count when its window elapses.
- **Configuration** (`Config.Config`) and **override-list parsers**
  (`Config.ParseCustomMaxReqPerSec`, `Config.ParseCustomBlockDuration`): a
  list such as `127.0.0.1=100;abc123=200` is split on `;`. Only segments that
  split on `=` into exactly two parts are kept. A later duplicate key wins, and
  one value that fails to parse fails the whole list. The value parsers are Go's
  `strconv.Atoi` (`Numbers.Atoi`) and `time.ParseDuration`
  (`Numbers.ParseDuration`, whole-number components only). The split is Go's
  `strings.Split` (`Strings.Split`).

Durations are `time.Duration` values: integer nanoseconds.

The two parsers run the same loop, which builds a map in place. The loop is
one generic method (`Config.ParseList`), given `strconv.Atoi` or
`time.ParseDuration` as its value parser, and it is proved equal to a
specification function (`Config.ParseOverrides`). The lemmas
state what that function promises. The engine is a class method over the store
object. For a store that does not fail, its effect equals `RateLimit.Decide`,
and the lemmas about repeated calls are stated over that function.

The code reads the count and then increments it in a separate store call;
there is no atomic increment-and-compare, and the model has the same two
steps. Override values are whatever `strconv.Atoi` accepts, so an override
may be zero or negative.

## Model

| member | source | states |
|---|---|---|
| `RateLimit.IsToken` | internal/ratelimit/rate_limit.go:45-48 | an identifier is a token exactly when every character is an ASCII letter or digit, so the empty identifier is a token |
| `RateLimit.TokenExamples` | internal/ratelimit/rate_limit.go:45-48 | the empty identifier and `abc123` are tokens |
| `RateLimit.AddressExamples` | internal/ratelimit/rate_limit.go:45-48 | `127.0.0.1` and `::1` are not tokens |
| `RateLimit.GetMaxReqPerSec` | internal/ratelimit/rate_limit.go:50-60 | an override is returned whatever the identifier's form; otherwise all-alphanumeric identifiers get the token default and all others get the IP default |
| `RateLimit.GetBlockDuration` | internal/ratelimit/rate_limit.go:62-72 | the same override-then-classification rule, over the block-duration overrides |
| `RateLimit.PoliciesIndependent` | internal/ratelimit/rate_limit.go:50-72 | the limit does not depend on the duration overrides, and the block duration does not depend on the limit overrides |
| `RateLimit.RateLimit.constructor` | internal/ratelimit/rate_limit.go:16-21 | the engine holds the given configuration and store |
| `RateLimit.RateLimit.IsLimitExceeded` | internal/ratelimit/rate_limit.go:23-43 | a failed read gives (false, error) and changes nothing; count >= limit gives (true, no error) and changes nothing; otherwise a failed increment gives (false, error) and changes nothing, and a successful one gives (false, no error) and raises only this identifier's count by 1, with the block duration recorded when the count is created; "exceeded" never comes with an error; without failures the effect is `Decide` |
| `RateLimit.RepeatedCalls` | internal/ratelimit/rate_limit.go:32-42 | from count c with limit N, call j is refused exactly when c + j >= N; the count ends at min(c + k, N), or stays c if c >= N; other identifiers' counts do not change |
| `RateLimit.FreshIdentifier` | internal/ratelimit/rate_limit.go:32-42 | an unseen identifier with limit N >= 0 passes exactly its first N calls, and its count after k calls is min(k, N) |
| `RateLimit.NeverAboveLimit` | internal/ratelimit/rate_limit.go:32-36 | a count that starts at or below the limit never rises above it |
| `RateLimit.ExpiredIsFresh` | internal/storage/redis_client.go:35-37 | once the store drops an identifier's count, the following calls behave as for an unseen identifier |
| `RateLimit.IPScenario` | internal/ratelimit/rate_limit.go:23-43 | an address under an IP limit of 5 passes five calls and is refused the sixth; after its count expires the next call passes |
| `RateLimit.TestIPNotExceeded` | internal/ratelimit/rate_limit_test.go:62 | under the test configuration, `192.168.1.1` with count 4 passes without error and its count becomes 5 |
| `RateLimit.TestIPExceeded` | internal/ratelimit/rate_limit_test.go:63 | `192.168.1.1` with count 5 is refused without error and its count stays 5 |
| `RateLimit.TestTokenNotExceeded` | internal/ratelimit/rate_limit_test.go:64 | `testToken` with count 0 passes under its override of 1 and its count becomes 1 |
| `RateLimit.TestTokenExceeded` | internal/ratelimit/rate_limit_test.go:65 | `testToken` with count 1 is refused under its override of 1, although the token default is 10 |
| `RateLimit.TestStorageError` | internal/ratelimit/rate_limit_test.go:66 | with a failing store the call returns an error and not "exceeded", and the count stays 0 |
| `RateLimit.OverrideScenario` | internal/ratelimit/rate_limit.go:50-53 | an override of 1 allows one call and refuses the second, although the token default is 10 |
| `Storage.MemoryStore.constructor` | internal/ratelimit/rate_limit_test.go:51 | a new store is empty and does not fail |
| `Storage.MemoryStore.GetRequestCount` | internal/ratelimit/rate_limit_test.go:26-38 | a failing store returns (0, error); otherwise it returns the stored count, or 0 for an identifier without one |
| `Storage.MemoryStore.IncrementRequestCount` | internal/ratelimit/rate_limit_test.go:17-24 | a failing store returns (0, error) and changes nothing; otherwise the identifier's count rises by 1 and is returned, no other count changes, and the expiry is recorded only when the new count is 1 |
| `Storage.MemoryStore.Expire` | internal/storage/redis_client.go:35-37 | when a window elapses, the identifier's count and expiry are removed and nothing else changes |
| `Config.StringToInt` | internal/config/config.go:93-100 | the parsed number and no error when `Atoi` succeeds; otherwise 0 and `Atoi`'s error |
| `Config.StringToDuration` | internal/config/config.go:102-109 | the parsed duration and no error when `ParseDuration` succeeds; otherwise 0 and an error |
| `Config.ParseList` | internal/config/config.go:58-69 | the loop both parsers share builds exactly the map and error of `ParseOverrides` for the given value parser |
| `Config.ParseCustomMaxReqPerSec` | internal/config/config.go:55-72 | the loop's map and error are exactly `ParseOverrides(customSettings, StringToInt)` |
| `Config.ParseCustomBlockDuration` | internal/config/config.go:74-91 | the loop's map and error are exactly `ParseOverrides(customSettings, StringToDuration)` |
| `Config.SegmentEntry` | internal/config/config.go:60-62 | a segment splits on `=` into exactly (k, v) if and only if it is `k=v` and neither side contains `=` |
| `Config.EntriesExactly` | internal/config/config.go:58-62 | the kept entries are exactly the pairs (k, v) without `=` such that `k=v` is a segment; the key is the whole untrimmed text left of `=`, and segments with zero or several `=` are skipped |
| `Config.ApplySucceedsIff` | internal/config/config.go:62-65 | building the map succeeds if and only if every kept value parses |
| `Config.ApplyFailure` | internal/config/config.go:62-65 | on failure there is no map, and the error is that of the first kept value that fails to parse |
| `Config.ApplyMap` | internal/config/config.go:59-69 | on success the keys are the initial keys plus the kept keys; each key holds the parse of its last kept entry; keys no entry names keep their values |
| `Config.ParseOverridesSpec` | internal/config/config.go:55-72 | for a whole list: success if and only if every kept value parses; failure gives no map and the first error; success gives exactly the kept keys, each with its last kept value |
| `Config.ParseOverridesEmpty` | internal/config/config.go:56-61 | the empty setting gives an empty map and no error |
| `Config.ConfigTestMaxReqPerSec` | internal/config/config_test.go:58-61 | `127.0.0.1=100;abc123=200` gives {127.0.0.1: 100, abc123: 200} |
| `Config.ConfigTestBlockDuration` | internal/config/config_test.go:63-66 | `127.0.0.1=10s;abc123=20s` gives {127.0.0.1: 10s, abc123: 20s} |
| `Config.LaterDuplicateWins` | internal/config/config.go:67 | for any key k and 64-bit a, b, the list `k=a;k=b` gives {k: b} and no error |
| `Config.MalformedSegmentsSkipped` | internal/config/config.go:61 | `b;c=x=4` gives the empty map without an error, although `x` is not a number |
| `Config.BadValueFailsList` | internal/config/config.go:62-65 | `k1=n;k2=v` with a good number n and a value v that `Atoi` rejects fails with v's error and gives no map |
| `Strings.Split` | internal/config/config.go:58 | `strings.Split` always returns at least one part |
| `Strings.JoinSplit` | internal/config/config.go:58 | joining the parts of a split with the separator gives the original string |
| `Strings.SplitJoin` | internal/config/config.go:58 | splitting a join of separator-free parts gives the parts back |
| `Strings.SplitPartsFree` | internal/config/config.go:58 | no part contains the separator |
| `Strings.SplitLength` | internal/config/config.go:60-61 | there is one more part than there are separators |
| `Strings.SplitInTwo` | internal/config/config.go:60-61 | a string splits into exactly two parts if and only if it contains the separator once, and then it is first part + separator + second part |
| `Numbers.Atoi` | internal/config/config.go:94 | `strconv.Atoi` accepts an optional sign and one or more digits within the 64-bit range; a success is a 64-bit value, and a failure is a syntax or range error for the input; a digit run that overflows is a range error even when a non-digit follows it |
| `Numbers.AtoiOverflowFirst` | internal/config/config.go:94 | a digit run above the unsigned 64-bit maximum is a range error, with any sign and whatever non-digit text follows it |
| `Numbers.AtoiOverflowExample` | internal/config/config.go:94 | `99999999999999999999x` is a range error, not a syntax error |
| `Numbers.ShortInputNoOverflow` | internal/config/config.go:94 | an input shorter than 19 characters never has an overflowing digit run, so Go's fast path and slow path agree on it |
| `Numbers.AtoiFormatInt` | internal/config/config.go:94 | every 64-bit integer printed in decimal parses back to itself |
| `Numbers.AtoiPlusSign` | internal/config/config.go:94 | a leading `+` is accepted |
| `Numbers.AtoiRejects` | internal/config/config.go:94-96 | empty text, a lone sign, or text that does not start with a sign or a digit is a syntax error |
| `Numbers.ParseDuration` | internal/config/config.go:103 | a successful parse is a 64-bit duration; a failure is an invalid-duration error for the input |
| `Numbers.ParseDurationComponent` | internal/config/config.go:103 | a number followed by a known unit (`ns`, `us`, `ms`, `s`, `m`, `h`) parses to that many units when the result fits |

## Left out

- `LoadConfig` (internal/config/config.go:23-53) reads a file and the environment through viper. This is I/O and is not modelled. `Config.Config` carries the Redis fields, but nothing reads them.
- The Redis-backed store (internal/storage/redis_client.go) is a network client and is not modelled. Only its rule that the first increment sets the expiry is kept. Its parsing of the stored value, which can fail on non-numeric data, is also left out.
- `storage.StorageInterface` is an interface with interchangeable back ends. The model has a single concrete class, `Storage.MemoryStore`, and the engine is written against it.
- `MemoryStore` has separate failure switches for reads and increments. The test store uses one error for both, so with it the increment-failure path cannot be reached. The separate switches make that path reachable.
- The HTTP middleware (internal/middleware/rate_limiter_middleware.go) and `cmd/ratelimit/main.go` are request extraction, status codes and server wiring. They are not part of this model.
- Concurrency: the model has single-threaded calls only. The race between the read at internal/ratelimit/rate_limit.go:24 and the increment at line 36 is not modelled.
- Time: there is no clock. Expiry is the explicit `Expire` action. The stored expiry records only the window length.
- Integer width: counts are unbounded integers. An increment happens only when the count is below a limit that is a Go `int`, so it cannot wrap.
- Errors are kinds only (`SyntaxError`, `RangeError`, `InvalidDuration`, `StorageError`). Go's error messages are not modelled. On a parse failure Go returns a nil map; the model returns the empty map together with the error.
- Numbers.ParseDuration: does not accept fractional components such as `1.5s`. Go computes these in floating point; the model reports them as invalid durations. Everything else in the model behaves as Go's grammar does: an optional sign, a lone `0`, and one or more `<digits><unit>` components with a 64-bit bound.
