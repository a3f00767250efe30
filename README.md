# Fixed-window rate limiter, modelled in Dafny

This project models the request rate limiter of the MediaPipeline HTTP service:
the gin middleware `RateLimiter(rdb, limit, window)` in
`internal/middleware/ratelimit.go`. For each request it:

1. builds the partition key `"rate:" + clientIP`;
2. atomically increments that key's counter in Redis;
3. rejects with status 500 and `{"error":"rate limiter error"}` if the increment fails;
4. gives the key a time to live of `window` when the new count is exactly 1;
5. rejects with status 429 and `{"error":"too many requests"}` when the new count exceeds `limit`,
   and otherwise calls the next handler.

Files:

- `counters.dfy`: module `Optional` (an `Option` type), and module `Counters`.
  `Counters` is the Redis server, reduced to the two commands the limiter uses.
  It holds the pure step functions `IncrStep`, `ExpireStep` and `AdvanceStep` over a `Store` value.
  It also holds the class `CounterStore`, whose methods update fields in place and are proved equal to those step functions.
- `ratelimit.dfy`: module `RateLimit`. It has the key function `Key` and its inverse `IpOf`,
  the quota decision `Decide`, and the handler `Admit` as a pure function of the store.
  The class `RateLimiter` holds the limit, the window and the shared store.
  Its method `Handle` is the handler closure and is proved to behave as `Admit`.
- `properties.dfy`: module `RateLimitProperties`. `Run` plays `n` requests from one address in a row.
  The lemmas prove the quota, fixed-window, isolation, rollover and fail-closed properties,
  plus two concrete settings: limit 10 and limit 1 per minute.

Store semantics, following Redis:

- `INCR` on a missing or expired key creates it with value 1 and no time to live.
- `INCR` on a live key keeps its time to live.
- `INCR` fails when the server is unreachable, or when the value is already the largest 64-bit integer.
- `EXPIRE` on a missing key does nothing.
- `EXPIRE` with a non-positive number of seconds deletes the key.
- A key is live while the clock is before its expiry instant. This strict comparison is this model's choice for whole seconds. Redis, at millisecond precision, still serves a key at its expiry instant.

Time is a logical clock in whole seconds, moved only by `Advance`.
The client IP is a parameter.
A `Decision` (`Next` or `Abort(status, error)`) stands for gin's `c.Next()` or `c.AbortWithStatusJSON`.

## Model

| member | source | states |
|---|---|---|
| `Counters.IncrStep` | internal/middleware/ratelimit.go:19 | The increment fails exactly when the store is down or the count would overflow 64 bits, and then nothing changes. Otherwise it returns the count seen before plus one. An expired key restarts from 0 without a time to live, a live key keeps its expiry, and no other key changes. |
| `Counters.ExpireStep` | internal/middleware/ratelimit.go:27 | Setting the expiry touches only a live key on a reachable store. A positive window makes the key expire `w` seconds from now and keeps its count. A non-positive window deletes it. No other key changes. |
| `Counters.CounterStore.Incr` | internal/middleware/ratelimit.go:19 | The in-place increment leaves the store in the state `IncrStep` gives, and returns its reply. |
| `Counters.CounterStore.Expire` | internal/middleware/ratelimit.go:27 | The in-place expiry-set leaves the store in the state `ExpireStep` gives. |
| `RateLimit.Key` | internal/middleware/ratelimit.go:16 | The partition key is exactly `"rate:"` followed by the client IP. |
| `RateLimit.IpOf` | internal/middleware/ratelimit.go:16 | Inverse of `Key`: a string is a limiter key iff it starts with `"rate:"`, and then `Key` of the recovered address gives it back. |
| `RateLimit.KeyRoundTrip` | internal/middleware/ratelimit.go:16 | Recovering the address from `Key(ip)` yields `ip`. |
| `RateLimit.KeyInjective` | internal/middleware/ratelimit.go:15-16 | Two addresses share a key iff they are equal. |
| `RateLimit.Decide` | internal/middleware/ratelimit.go:31-36 | A request is passed on iff its count is at most `limit`, so a count equal to `limit` passes. Otherwise it is aborted with 429 "too many requests". |
| `RateLimit.Admit` | internal/middleware/ratelimit.go:13-37 | A failed increment gives 500 "rate limiter error" and leaves the store unchanged, so no expiry is set. Otherwise the decision is `Decide(count + 1, limit)` and the count grows by one, rejected requests included. The request that creates the counter sets its expiry to now + window, and later requests leave it unchanged. Only the caller's key changes. |
| `RateLimit.RateLimiter.constructor` | internal/middleware/ratelimit.go:12 | The limiter keeps the store, limit and window it was created with. |
| `RateLimit.RateLimiter.Handle` | internal/middleware/ratelimit.go:13-37 | Handling a request in place leaves the shared store in the state `Admit` gives, and returns its decision. |
| `RateLimitProperties.Run` | internal/middleware/ratelimit.go:13-37 | `n` successive requests yield exactly `n` decisions. |
| `RateLimitProperties.QuotaRun` | internal/middleware/ratelimit.go:19-36 | Within one window, request `i` is decided on count c + i + 1. The count grows by `n`, rejected requests included. The window ends where the request that created the counter put it, and later requests never move it. |
| `RateLimitProperties.FreshWindowQuota` | internal/middleware/ratelimit.go:19-36 | From a missing or expired key, request `i` passes iff `i < limit`. Every other request gets 429, and the stored count reaches `n`. |
| `RateLimitProperties.RunIsolation` | internal/middleware/ratelimit.go:16-27 | Any number of requests from one address change no other key's entry, and they do not change the clock. |
| `RateLimitProperties.AdmitIsolation` | internal/middleware/ratelimit.go:15-19 | A request from one address leaves the count of every other address unchanged. |
| `RateLimitProperties.StoreDownRun` | internal/middleware/ratelimit.go:19-23 | With the store unreachable, every request gets 500 and the store is untouched. Nothing is passed on (fail closed). |
| `RateLimitProperties.ExpiredKeyRestarts` | internal/middleware/ratelimit.go:19-31 | A request on an expired key sees count 1 and opens a new window. It passes iff `limit >= 1`. |
| `RateLimitProperties.Rollover` | internal/middleware/ratelimit.go:19-31 | After a window opened at time T, a request at T + window or later counts as the first of a fresh window, not as request n + 1. |
| `RateLimitProperties.BoundaryBurst` | internal/middleware/ratelimit.go:26-36 | `limit` requests when a window opens and `limit` more when it ends all pass: as many as twice the limit within one window length. |
| `RateLimitProperties.BoundaryBurstAcrossEdge` | internal/middleware/ratelimit.go:19-36 | One request opens a window at T, `limit` - 1 more come at T + window - 1, and `limit` more at T + window. All of them pass, so 2 * `limit` - 1 requests pass within one second across the edge. |
| `RateLimitProperties.NonPositiveWindowNeverLimits` | internal/middleware/ratelimit.go:26-28 | With a non-positive window the first request deletes its own counter. Every request then counts as the first, and nothing is limited when `limit >= 1`. |
| `RateLimitProperties.TenPerMinute` | internal/middleware/ratelimit.go:12-37 | For one IP-keyed limiter built with limit 10 and a 60-second window, ten requests from a fresh address pass and the eleventh gets 429. |
| `RateLimitProperties.OnePerMinute` | main.go:32 | With limit 1 and a 60-second window, the second request gets 429, and a request 60 seconds later passes again. |

## Left out

- Concurrency is left out. Requests are a sequential trace. Concurrent `INCR`s are not modelled as linearized replies.
- Counters.IncrStep: a `Failure` never changes the store. In the source, `rdb.Incr(...).Result()` (internal/middleware/ratelimit.go:19) also returns an error when Redis applied the INCR but the reply was lost, for example through a read timeout or a dropped connection. The request then gets 500 although its quota was used. If that INCR created the key, no later request sees count 1 (line 26), so the key never gets a time to live. Once its count passes `limit`, that address is rejected with 429 for good.
- RateLimit.Admit: the store is left unchanged after every 500, so the lost-reply case above (an applied increment reported as an error) and the permanent block it can cause are not captured.
- The increment/expire race is left out. So is an `EXPIRE` failing after its `INCR` succeeded. One `up` flag answers for both calls within a request, so in the model neither way leaves a counter without an expiry. The lost INCR reply described above is a third way the source can leave one.
- The ignored result of `EXPIRE` is modelled only as this: the decision never depends on it.
- Redis key eviction is not modelled. Neither are sub-second TTL rounding and millisecond expiry precision. The window is a whole number of seconds, and expiry is decided at that granularity.
- gin's `ClientIP` resolution is a given string. The network transport and `context.Background()` (no timeout) are left out. So is the JSON encoding of the error body, which is the `error` field of `Decision.Abort`.
- `limit` is a Dafny `int`. Go converts an `int` to `int64` with no change on 64-bit platforms, so no truncation is modelled.
- The deployed chain is not modelled. `main.go:32` registers a global IP-keyed limiter with limit 1 per minute before the routes are set up (`main.go:34`), so every upload request passes it before the limiter of `internal/api/routes.go:29`. The lemmas treat one limiter at a time. `TenPerMinute` is about a single IP-keyed limiter with limit 10, not about what the upload routes admit.
- `internal/api/routes.go:29` passes a fourth argument, `middleware.BusinessRateLimit{}`. The limiter shown takes three parameters, and no key-strategy type exists in the source. Only the IP-keyed limiter is modelled. There is no credential-keyed strategy and no 400 response for a missing credential.
- Route registration, the stub handlers, CORS handling, configuration loading and `GenerateAPIKey`/`CreateBusiness` are not part of this model. They are glue, I/O or foreign randomness.
