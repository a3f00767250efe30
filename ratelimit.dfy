/**
 The fixed-window rate limiter middleware. For every request it increments the
 counter of the caller's partition key, gives a newly created counter a time
 to live of one window, and lets the request through unless the new count
 exceeds the limit. A store error rejects the request (fail closed).

 `Admit` is the handler as a pure function of the store's state; the class
 `RateLimiter` is the handler itself, acting on a `CounterStore` in place, and
 is proved to do what `Admit` says.
 */
module RateLimit {
  import opened Optional
  import opened Counters

  /** Prefix of every partition key the limiter writes. */
  const Prefix: string := "rate:"

  const StatusTooManyRequests: int := 429
  const StatusInternalServerError: int := 500
  const StoreErrorMessage: string := "rate limiter error"
  const TooManyMessage: string := "too many requests"

  /**
   What the handler does with the request: pass it to the next handler, or
   abort it with an HTTP status and the `error` field of the JSON body.
   */
  datatype Decision = Next | Abort(status: int, error: string)

  /** The response to a request rejected because the store failed. */
  const StoreError: Decision := Abort(StatusInternalServerError, StoreErrorMessage)

  /** The response to a request over the quota. */
  const TooMany: Decision := Abort(StatusTooManyRequests, TooManyMessage)

  /** The partition key of a client: the prefix followed by the client's IP address. */
  function Key(ip: string): (k: string)
    ensures |k| == |Prefix| + |ip|
    ensures k[..|Prefix|] == Prefix && k[|Prefix|..] == ip
  {
    Prefix + ip
  }

  /** The client address a partition key belongs to, or None for a key the limiter never writes. */
  function IpOf(k: string): (r: Option<string>)
    ensures r.Some? <==> |k| >= |Prefix| && k[..|Prefix|] == Prefix
    ensures r.Some? ==> Key(r.value) == k
  {
    if |k| >= |Prefix| && k[..|Prefix|] == Prefix then Some(k[|Prefix|..]) else None
  }

  /** Recovering the address from a key gives back the address the key was made from. */
  lemma KeyRoundTrip(ip: string)
    ensures IpOf(Key(ip)) == Some(ip)
  {
  }

  /** Two clients share a counter exactly when they have the same address. */
  lemma KeyInjective(a: string, b: string)
    ensures Key(a) == Key(b) <==> a == b
  {
  }

  /** The quota decision on the post-increment count: only a count above the limit is rejected. */
  function Decide(count: int, limit: int): (d: Decision)
    ensures d.Next? <==> count <= limit
    ensures d.Abort? ==> d == TooMany
  {
    if count > limit then TooMany else Next
  }

  /**
   One request from address `ip` against store `s`, with the limiter configured
   with `limit` and `window` (seconds): the new store and the decision.
   */
  function Admit(s: Store, ip: string, limit: int, window: int): (r: (Store, Decision))
    // A store that fails the increment rejects the request and is left as it was.
    ensures !s.up || Count(s, Key(ip)) >= MaxInt64 ==> r == (s, StoreError)
    // Otherwise the request is judged on the incremented count alone.
    ensures s.up && Count(s, Key(ip)) < MaxInt64 ==> r.1 == Decide(Count(s, Key(ip)) + 1, limit)
    // The request consumes one unit of quota, whether it is admitted or not
    // (unless the first request's non-positive window deleted the key again).
    ensures s.up && Count(s, Key(ip)) < MaxInt64 ==>
      Count(r.0, Key(ip)) == if Count(s, Key(ip)) == 0 && window <= 0 then 0 else Count(s, Key(ip)) + 1
    // The request that creates the counter starts its window ...
    ensures s.up && Count(s, Key(ip)) == 0 && window > 0 ==>
      Key(ip) in r.0.entries && r.0.entries[Key(ip)].expiresAt == Some(s.now + window)
    // ... and no later request moves the end of that window.
    ensures Count(s, Key(ip)) != 0 ==>
      Key(ip) in s.entries && Key(ip) in r.0.entries && r.0.entries[Key(ip)].expiresAt == s.entries[Key(ip)].expiresAt
    ensures OnlyKeyChanged(s, r.0, Key(ip))
    ensures Valid(s) ==> Valid(r.0)
  {
    var key := Key(ip);
    var (s1, reply) := IncrStep(s, key);
    match reply
    case Failure => (s1, StoreError)
    case Value(count) =>
      var s2 := if count == 1 then ExpireStep(s1, key, window).0 else s1;
      (s2, Decide(count, limit))
  }

  /**
   The middleware: a limit and a window fixed when it is created, and the
   store it shares with every other request.
   */
  class RateLimiter {
    const store: CounterStore
    const limit: int
    const window: int

    constructor (store: CounterStore, limit: int, window: int)
      ensures this.store == store && this.limit == limit && this.window == window
    {
      this.store, this.limit, this.window := store, limit, window;
    }

    /** Handles one request from `ip`: increments, sets the window on a new counter, decides. */
    method Handle(ip: string) returns (d: Decision)
      modifies store
      ensures (store.State(), d) == Admit(old(store.State()), ip, limit, window)
    {
      var key := Key(ip);
      var reply := store.Incr(key);
      if reply.Failure? {
        return StoreError;
      }
      var count := reply.n;
      if count == 1 {
        // The outcome of setting the expiry is ignored.
        var _ := store.Expire(key, window);
      }
      if count > limit {
        return TooMany;
      }
      d := Next;
    }
  }
}
