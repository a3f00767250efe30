/** The usual Some/None datatype, for an optional expiry instant. */
module Optional {
  datatype Option<T> = None | Some(value: T)
}

/**
 The shared counter store the rate limiter talks to (a Redis server in the
 deployed system), reduced to the two commands the limiter issues: an atomic
 increment that returns the new value, and setting a key's time to live.

 The store is described twice: as pure step functions over a `Store` value,
 which the lemmas reason about, and as the class `CounterStore`, whose methods
 update its fields in place and are proved to agree with the step functions.
 Time is a logical clock counted in whole seconds.
 */
module Counters {
  import opened Optional

  /** Largest signed 64-bit integer: a Redis counter cannot be incremented past it. */
  const MaxInt64: int := 0x7fff_ffff_ffff_ffff

  /** One key: its counter, and the instant at which it expires if it has a time to live. */
  datatype Entry = Entry(count: int, expiresAt: Option<int>)

  /**
   Everything the store holds: every key written so far (expired ones stay
   until they are written again, as if the server had not yet reclaimed them),
   the current instant, and whether the server answers at all.
   */
  datatype Store = Store(entries: map<string, Entry>, now: int, up: bool)

  /** Reply of an increment: the post-increment value, or an error. */
  datatype Reply = Value(n: int) | Failure

  /**
   A key exists for clients when it was written and its time to live, if any,
   has not run out. With whole seconds this model takes a key to be gone from
   its expiry instant on (Redis itself, at millisecond precision, still serves
   it at that instant).
   */
  predicate Live(s: Store, k: string) {
    k in s.entries && (s.entries[k].expiresAt.None? || s.now < s.entries[k].expiresAt.value)
  }

  /** The value a client sees under key `k`: a missing or expired key counts as 0. */
  function Count(s: Store, k: string): int {
    if Live(s, k) then s.entries[k].count else 0
  }

  /** Counters are only ever created by an increment, so each is between 1 and the 64-bit maximum. */
  predicate Valid(s: Store) {
    forall k :: k in s.entries ==> 1 <= s.entries[k].count <= MaxInt64
  }

  /** `t` differs from `s` at most in the entry of key `k`. */
  predicate OnlyKeyChanged(s: Store, t: Store, k: string) {
    t.entries - {k} == s.entries - {k} && t.now == s.now && t.up == s.up
  }

  /**
   INCR: a missing or expired key starts again from 0 and is recreated without
   a time to live; a live key keeps the time to live it has. The call fails when
   the server is down or when the increment would overflow 64 bits, and then
   nothing changes.
   */
  function IncrStep(s: Store, k: string): (r: (Store, Reply))
    ensures r.1.Failure? <==> !s.up || Count(s, k) >= MaxInt64
    ensures r.1.Failure? ==> r.0 == s
    ensures r.1.Value? ==> r.1.n == Count(s, k) + 1 && Count(r.0, k) == r.1.n
    ensures r.1.Value? && Live(s, k) ==> k in r.0.entries && r.0.entries[k].expiresAt == s.entries[k].expiresAt
    ensures r.1.Value? && !Live(s, k) ==> k in r.0.entries && r.0.entries[k].expiresAt == None
    ensures OnlyKeyChanged(s, r.0, k)
    ensures Valid(s) ==> Valid(r.0)
  {
    if !s.up || Count(s, k) >= MaxInt64 then (s, Failure)
    else
      var e := if Live(s, k) then s.entries[k].(count := s.entries[k].count + 1) else Entry(1, None);
      (s.(entries := s.entries[k := e]), Value(e.count))
  }

  /**
   EXPIRE k w: on a live key, a positive `w` makes the key expire `w` seconds
   from now and a non-positive `w` deletes it at once; on a missing or expired
   key, or when the server is down, nothing happens. The boolean says whether
   the key was touched.
   */
  function ExpireStep(s: Store, k: string, w: int): (r: (Store, bool))
    ensures r.1 <==> s.up && Live(s, k)
    ensures !r.1 ==> r.0 == s
    ensures r.1 && w > 0 ==> Live(r.0, k) && r.0.entries[k] == Entry(s.entries[k].count, Some(s.now + w))
    ensures r.1 && w <= 0 ==> !Live(r.0, k) && Count(r.0, k) == 0
    ensures OnlyKeyChanged(s, r.0, k)
    ensures Valid(s) ==> Valid(r.0)
  {
    if !s.up || !Live(s, k) then (s, false)
    else if w <= 0 then (s.(entries := s.entries - {k}), true)
    else (s.(entries := s.entries[k := s.entries[k].(expiresAt := Some(s.now + w))]), true)
  }

  /** The clock moves forward by `d` seconds: keys can only expire, never revive or change value. */
  function AdvanceStep(s: Store, d: nat): (r: Store)
    ensures r.entries == s.entries && r.up == s.up && r.now == s.now + d
    ensures forall k :: Live(r, k) ==> Live(s, k) && Count(r, k) == Count(s, k)
    ensures Valid(s) ==> Valid(r)
  {
    s.(now := s.now + d)
  }

  /** The store as a mutable object: its fields are the components of a `Store`. */
  class CounterStore {
    var entries: map<string, Entry>
    var now: int
    var up: bool

    /** The abstract value of the object. */
    function State(): Store
      reads this
    {
      Store(entries, now, up)
    }

    /** An empty store, reachable, at time 0. */
    constructor ()
      ensures State() == Store(map[], 0, true) && Valid(State())
    {
      entries, now, up := map[], 0, true;
    }

    /** Atomic increment of `k`, returning the new value. */
    method Incr(k: string) returns (reply: Reply)
      modifies this
      ensures (State(), reply) == IncrStep(old(State()), k)
    {
      if !up || Count(State(), k) >= MaxInt64 {
        return Failure;
      }
      var e;
      if Live(State(), k) {
        e := entries[k].(count := entries[k].count + 1);
      } else {
        e := Entry(1, None);
      }
      entries := entries[k := e];
      reply := Value(e.count);
    }

    /** Sets the time to live of `k` to `w` seconds. */
    method Expire(k: string, w: int) returns (applied: bool)
      modifies this
      ensures (State(), applied) == ExpireStep(old(State()), k, w)
    {
      if !up || !Live(State(), k) {
        return false;
      }
      if w <= 0 {
        entries := entries - {k};
      } else {
        entries := entries[k := entries[k].(expiresAt := Some(now + w))];
      }
      applied := true;
    }

    /** Lets `d` seconds pass. */
    method Advance(d: nat)
      modifies this
      ensures State() == AdvanceStep(old(State()), d)
    {
      now := now + d;
    }

    /** Makes the server reachable or unreachable (a fault injected by the environment). */
    method SetUp(b: bool)
      modifies this
      ensures State() == old(State()).(up := b)
    {
      up := b;
    }
  }
}
