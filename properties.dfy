/**
 Properties of the limiter over sequences of requests: the quota within one
 window, the window that is never extended, isolation between clients, the
 fresh window after expiry, fail-closed behaviour and the burst the fixed
 window allows across its boundary.
 */
module RateLimitProperties {
  import opened Optional
  import opened Counters
  import opened RateLimit

  /** `n` requests in a row from `ip`, with no time passing between them. */
  function Run(s: Store, ip: string, limit: int, window: int, n: nat): (r: (Store, seq<Decision>))
    ensures |r.1| == n
    decreases n
  {
    if n == 0 then (s, [])
    else
      var (s1, d) := Admit(s, ip, limit, window);
      var (s2, ds) := Run(s1, ip, limit, window, n - 1);
      (s2, [d] + ds)
  }

  /**
   Within one window, the i-th of `n` requests (counting from 0) is judged on
   count c + i + 1, where c is the count it starts from; afterwards the count
   has grown by n, rejected requests included, and the window ends where the
   first request of the window put it.
   */
  lemma {:induction false} QuotaRun(s: Store, ip: string, limit: int, window: int, n: nat)
    requires Valid(s) && s.up && window > 0
    requires Count(s, Key(ip)) + n <= MaxInt64
    decreases n
    ensures var (t, ds) := Run(s, ip, limit, window, n);
      && Valid(t) && t.up && t.now == s.now
      && Count(t, Key(ip)) == Count(s, Key(ip)) + n
      && (forall i :: 0 <= i < n ==> ds[i] == Decide(Count(s, Key(ip)) + i + 1, limit))
      && (n > 0 && Count(s, Key(ip)) == 0 ==>
            Key(ip) in t.entries && t.entries[Key(ip)].expiresAt == Some(s.now + window))
      && (Count(s, Key(ip)) != 0 ==>
            Key(ip) in s.entries && Key(ip) in t.entries && t.entries[Key(ip)].expiresAt == s.entries[Key(ip)].expiresAt)
  {
    if n > 0 {
      var k := Key(ip);
      var (s1, d) := Admit(s, ip, limit, window);
      QuotaRun(s1, ip, limit, window, n - 1);
      var (t, ds) := Run(s1, ip, limit, window, n - 1);
      assert Run(s, ip, limit, window, n) == (t, [d] + ds);
      forall i | 0 <= i < n
        ensures ([d] + ds)[i] == Decide(Count(s, k) + i + 1, limit)
      {
        if i > 0 {
          assert ([d] + ds)[i] == ds[i - 1];
        }
      }
    }
  }

  /**
   From a missing or expired key, the first `limit` requests are passed on and
   every later one is rejected with 429, while the count keeps growing.
   */
  lemma FreshWindowQuota(s: Store, ip: string, limit: int, window: int, n: nat)
    requires Valid(s) && s.up && window > 0
    requires Count(s, Key(ip)) == 0 && n <= MaxInt64
    ensures var (t, ds) := Run(s, ip, limit, window, n);
      && Count(t, Key(ip)) == n
      && (forall i :: 0 <= i < n ==> (ds[i] == Next <==> i < limit))
      && (forall i :: 0 <= i < n ==> (ds[i] != Next <==> ds[i] == TooMany))
  {
    QuotaRun(s, ip, limit, window, n);
  }

  /** Requests from one client change neither the counters of other keys nor the clock. */
  lemma {:induction false} RunIsolation(s: Store, ip: string, limit: int, window: int, n: nat)
    ensures OnlyKeyChanged(s, Run(s, ip, limit, window, n).0, Key(ip))
    decreases n
  {
    if n > 0 {
      var (s1, d) := Admit(s, ip, limit, window);
      RunIsolation(s1, ip, limit, window, n - 1);
    }
  }

  /** A request from one client leaves the count every other client sees as it was. */
  lemma AdmitIsolation(s: Store, ip: string, other: string, limit: int, window: int)
    requires other != ip
    ensures Count(Admit(s, ip, limit, window).0, Key(other)) == Count(s, Key(other))
  {
    KeyInjective(ip, other);
    var t := Admit(s, ip, limit, window).0;
    assert t.entries - {Key(ip)} == s.entries - {Key(ip)};
    if Key(other) in s.entries {
      assert Key(other) in s.entries - {Key(ip)};
    }
    if Key(other) in t.entries {
      assert Key(other) in t.entries - {Key(ip)};
    }
  }

  /**
   When the store is unreachable every request is rejected with 500: nothing
   is ever passed on, and no counter or expiry changes.
   */
  lemma {:induction false} StoreDownRun(s: Store, ip: string, limit: int, window: int, n: nat)
    requires !s.up
    decreases n
    ensures var (t, ds) := Run(s, ip, limit, window, n);
      t == s && forall i :: 0 <= i < n ==> ds[i] == StoreError
  {
    if n > 0 {
      StoreDownRun(s, ip, limit, window, n - 1);
      var (t, ds) := Run(s, ip, limit, window, n - 1);
      forall i | 0 <= i < n
        ensures ([StoreError] + ds)[i] == StoreError
      {
        if i > 0 {
          assert ([StoreError] + ds)[i] == ds[i - 1];
        }
      }
    }
  }

  /**
   A key whose window has run out counts as 0: the next request sees count 1,
   is passed on whenever the limit is at least 1, and opens a new window.
   */
  lemma ExpiredKeyRestarts(s: Store, ip: string, limit: int, window: int)
    requires s.up && window > 0
    requires Key(ip) in s.entries && s.entries[Key(ip)].expiresAt.Some?
    requires s.entries[Key(ip)].expiresAt.value <= s.now
    ensures var (t, d) := Admit(s, ip, limit, window);
      && Count(t, Key(ip)) == 1
      && (d == Next <==> limit >= 1)
      && t.entries[Key(ip)].expiresAt == Some(s.now + window)
  {
    assert !Live(s, Key(ip));
  }

  /**
   After `n` requests that start a window at time T, once the clock reaches
   T + window the next request is counted as the first of a fresh window, not
   as request n + 1.
   */
  lemma Rollover(s: Store, ip: string, limit: int, window: int, n: nat, d: nat)
    requires Valid(s) && s.up && window > 0
    requires Count(s, Key(ip)) == 0 && 1 <= n <= MaxInt64 && d >= window
    ensures var t := AdvanceStep(Run(s, ip, limit, window, n).0, d);
      var (u, dec) := Admit(t, ip, limit, window);
      && Count(t, Key(ip)) == 0
      && dec == Decide(1, limit)
      && Count(u, Key(ip)) == 1
      && u.entries[Key(ip)].expiresAt == Some(s.now + d + window)
  {
    QuotaRun(s, ip, limit, window, n);
    var t := AdvanceStep(Run(s, ip, limit, window, n).0, d);
    assert !Live(t, Key(ip));
  }

  /**
   The fixed window can admit as many as twice the limit within one window
   length: `limit` requests at the start of a window and `limit` more the
   instant it ends are all passed on.
   */
  lemma BoundaryBurst(s: Store, ip: string, limit: nat, window: int)
    requires Valid(s) && s.up && window > 0
    requires Count(s, Key(ip)) == 0 && limit <= MaxInt64
    ensures var (t, first) := Run(s, ip, limit, window, limit);
      var (_, second) := Run(AdvanceStep(t, window), ip, limit, window, limit);
      forall i :: 0 <= i < limit ==> first[i] == Next && second[i] == Next
  {
    FreshWindowQuota(s, ip, limit, window, limit);
    if limit > 0 {
      QuotaRun(s, ip, limit, window, limit);
      var t := Run(s, ip, limit, window, limit).0;
      var t' := AdvanceStep(t, window);
      assert !Live(t', Key(ip));
      FreshWindowQuota(t', ip, limit, window, limit);
    }
  }

  /**
   The burst across a window's edge: one request opens a window at time T,
   `limit` - 1 more arrive one second before the window ends, and `limit` more
   the instant it ends. All 2 * `limit` of them are passed on, the last
   2 * `limit` - 1 within one second.
   */
  lemma BoundaryBurstAcrossEdge(s: Store, ip: string, limit: int, window: int)
    requires Valid(s) && s.up && window >= 1
    requires Count(s, Key(ip)) == 0 && 1 <= limit <= MaxInt64
    ensures var (t1, opening) := Run(s, ip, limit, window, 1);
      var (t2, late) := Run(AdvanceStep(t1, window - 1), ip, limit, window, limit - 1);
      var (_, next) := Run(AdvanceStep(t2, 1), ip, limit, window, limit);
      && opening == [Next]
      && (forall i :: 0 <= i < limit - 1 ==> late[i] == Next)
      && (forall i :: 0 <= i < limit ==> next[i] == Next)
  {
    var k := Key(ip);
    QuotaRun(s, ip, limit, window, 1);
    var t1 := Run(s, ip, limit, window, 1).0;
    var u1 := AdvanceStep(t1, window - 1);
    assert Live(u1, k) && Count(u1, k) == 1;
    QuotaRun(u1, ip, limit, window, limit - 1);
    var t2 := Run(u1, ip, limit, window, limit - 1).0;
    var u2 := AdvanceStep(t2, 1);
    assert !Live(u2, k);
    FreshWindowQuota(u2, ip, limit, window, limit);
  }

  /**
   With a non-positive window the first request deletes the counter it has
   just created, so every request is seen as the first one: nothing is ever
   limited when the limit is at least 1.
   */
  lemma {:induction false} NonPositiveWindowNeverLimits(s: Store, ip: string, limit: int, window: int, n: nat)
    requires Valid(s) && s.up && window <= 0 && limit >= 1
    requires Count(s, Key(ip)) == 0
    decreases n
    ensures var (t, ds) := Run(s, ip, limit, window, n);
      Count(t, Key(ip)) == 0 && forall i :: 0 <= i < n ==> ds[i] == Next
  {
    if n > 0 {
      var (s1, d) := Admit(s, ip, limit, window);
      NonPositiveWindowNeverLimits(s1, ip, limit, window, n - 1);
      var (t, ds) := Run(s1, ip, limit, window, n - 1);
      forall i | 0 <= i < n
        ensures ([d] + ds)[i] == Next
      {
        if i > 0 {
          assert ([d] + ds)[i] == ds[i - 1];
        }
      }
    }
  }

  /**
   One IP-keyed limiter built with limit 10 and a 60-second window: ten
   requests in a row from one fresh address are passed on and the eleventh
   gets 429.
   */
  lemma TenPerMinute(s: Store, ip: string)
    requires Valid(s) && s.up && Count(s, Key(ip)) == 0
    ensures Run(s, ip, 10, 60, 11).1 == [Next, Next, Next, Next, Next, Next, Next, Next, Next, Next, TooMany]
  {
    FreshWindowQuota(s, ip, 10, 60, 11);
  }

  /**
   The global configuration, 1 request per minute: of two requests in a row
   from one fresh address the first is passed on and the second gets 429; a
   minute later the next one is passed on again.
   */
  lemma OnePerMinute(s: Store, ip: string)
    requires Valid(s) && s.up && Count(s, Key(ip)) == 0
    ensures var (t, ds) := Run(s, ip, 1, 60, 2);
      ds == [Next, TooMany] && Admit(AdvanceStep(t, 60), ip, 1, 60).1 == Next
  {
    FreshWindowQuota(s, ip, 1, 60, 2);
    Rollover(s, ip, 1, 60, 2, 60);
  }
}
