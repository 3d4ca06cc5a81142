/**
 * The fixed-window rate limiter (limiter.go).  Its whole state is one
 * cache entry, under the key "limiter " + name, holding the number of
 * attempts left.  Each state-changing operation is a short sequence of
 * cache calls; the functions below give its effect on the store, built
 * from the backend's functions and so from the `Cache` contract they
 * meet.  The read-only operations read the counter once and clamp it.
 */
module RateLimit {
  import opened Wrappers
  import opened CacheContract
  import opened MemStore

  /** NewRateLimiter's key. */
  function KeyFor(name: string): (key: string)
    ensures |key| == |name| + 8 && key[..8] == "limiter " && key[8..] == name
  {
    "limiter " + name
  }

  /** Hit: Decrement by one; when there was no entry, Put maxAttempts-1
      (uint32 arithmetic) with a fresh window. */
  function HitStore(s: Store, key: string, max: Uint32, ttl: int, now: int, c: Caster)
    : (r: (Option<Error>, Store))
    ensures Others(s, r.1, key)
    ensures Lookup(s, key, now).None? ==>
              r.0 == None && Holds(r.1, key, Record(UintV(U32(max - 1)), Some(now + ttl)))
    ensures Lookup(s, key, now).Some? && c.toInt(s[key].data).Some? ==>
              r.0 == None &&
              Holds(r.1, key, Record(IntV(Wrap64(c.toInt(s[key].data).value - 1)), s[key].expiry))
    ensures Lookup(s, key, now).Some? && c.toInt(s[key].data).None? ==>
              r == (Some(NotNumeric), s)
  {
    var d := DecrementStore(s, key, 1, now, c);
    if d.1.Some? then (d.1, d.2)
    else if !d.0 then (None, PutStore(d.2, key, UintV(U32(max - 1)), Some(ttl), now))
    else (None, d.2)
  }

  /** Lock: Update to 0, keeping the window; otherwise Put 0 with a
      fresh window (the update-else-put of PutOrUpdate). */
  function LockStore(s: Store, key: string, ttl: int, now: int): (t: Store)
    ensures PutOrUpdatePost(s, t, key, IntV(0), Some(ttl), now)
  {
    PutOrUpdateStore(s, key, IntV(0), Some(ttl), now)
  }

  /** Reset: Put maxAttempts with a fresh window, whatever was there. */
  function ResetStore(s: Store, key: string, max: Uint32, ttl: int, now: int): (t: Store)
    ensures Holds(t, key, Record(UintV(max), Some(now + ttl))) && Others(s, t, key)
  {
    PutStore(s, key, UintV(max), Some(ttl), now)
  }

  /** MustLock, given the value Cast read: not locked when nothing is
      stored, locked with the error when the counter does not convert,
      otherwise locked iff the counter is at most zero. */
  function MustLockOf(v: Value, c: Caster): (r: (bool, Option<Error>))
    ensures v == NilV ==> r == (false, None)
    ensures r.1.Some? <==> v != NilV && c.toInt(v).None?
    ensures r.1.Some? ==> r.0
    ensures v != NilV && c.toInt(v).Some? ==> r.0 == (c.toInt(v).value <= 0)
  {
    if v == NilV then (false, None)
    else match c.toInt(v)
      case None => (true, Some(CastFailed))
      case Some(num) => (num <= 0, None)
  }

  /** RetriesLeft: the counter clamped below at zero and converted to
      uint32; zero when nothing is stored or on error. */
  function RetriesLeftOf(v: Value, c: Caster): (r: (Uint32, Option<Error>))
    ensures r.1.Some? <==> v != NilV && c.toInt(v).None?
    ensures v == NilV || r.1.Some? ==> r.0 == 0
    ensures v != NilV && c.toInt(v).Some? && c.toInt(v).value <= MaxUint32 ==>
              r.0 == if c.toInt(v).value < 0 then 0 else c.toInt(v).value
  {
    if v == NilV then (0, None)
    else match c.toInt(v)
      case None => (0, Some(CastFailed))
      case Some(num) => (U32(if num < 0 then 0 else num), None)
  }

  /** TotalAttempts as written: the counter is raised to maxAttempts when
      below it, then maxAttempts - uint32(counter) in uint32 arithmetic. */
  function TotalAttemptsOf(v: Value, max: Uint32, c: Caster): (r: (Uint32, Option<Error>))
    ensures r.1.Some? <==> v != NilV && c.toInt(v).None?
    ensures v == NilV || r.1.Some? ==> r.0 == 0
    ensures v != NilV && c.toInt(v).Some? && c.toInt(v).value <= max ==> r.0 == 0
    ensures v != NilV && c.toInt(v).Some? && max < c.toInt(v).value <= MaxUint32 ==>
              r.0 == TwoTo32 + max - c.toInt(v).value
  {
    if v == NilV then (0, None)
    else match c.toInt(v)
      case None => (0, Some(CastFailed))
      case Some(num) =>
        var clamped := if num < max then max else num;
        (U32(max - U32(clamped)), None)
  }

  /** The number of attempts used, as the interface documents it: the
      counter clamped into [0, maxAttempts], subtracted from maxAttempts. */
  function UsedAttemptsOf(v: Value, max: Uint32, c: Caster): (r: (Uint32, Option<Error>))
    ensures v == NilV ==> r == (0, None)
    ensures r.1.Some? <==> v != NilV && c.toInt(v).None?
    ensures r.0 <= max
    ensures v != NilV && c.toInt(v).Some? && 0 <= c.toInt(v).value <= max ==>
              r.0 == max - c.toInt(v).value
    ensures v != NilV && c.toInt(v).Some? && c.toInt(v).value > max ==> r.0 == 0
    ensures v != NilV && c.toInt(v).Some? && c.toInt(v).value < 0 ==> r.0 == max
  {
    if v == NilV then (0, None)
    else match c.toInt(v)
      case None => (0, Some(CastFailed))
      case Some(num) =>
        var clamped := if num < 0 then 0 else if num > max then max else num;
        (max - clamped, None)
  }

  class Limiter {
    const key: string
    const maxAttempts: Uint32
    const ttl: int
    const cache: MemCache

    /** NewRateLimiter. */
    constructor (name: string, maxAttempts: Uint32, ttl: int, cache: MemCache)
      ensures key == KeyFor(name) && this.maxAttempts == maxAttempts
      ensures this.ttl == ttl && this.cache == cache
    {
      key := "limiter " + name;
      this.maxAttempts := maxAttempts;
      this.ttl := ttl;
      this.cache := cache;
    }

    method Hit(now: int) returns (err: Option<Error>)
      modifies cache
      ensures (err, cache.data) == HitStore(old(cache.data), key, maxAttempts, ttl, now, cache.caster)
    {
      var existed;
      existed, err := cache.Decrement(key, 1, now);
      if err.Some? {
        return;
      }
      if !existed {
        cache.Put(key, UintV(U32(maxAttempts - 1)), Some(ttl), now);
      }
    }

    method Lock(now: int)
      modifies cache
      ensures cache.data == LockStore(old(cache.data), key, ttl, now)
    {
      var existed := cache.Update(key, IntV(0), now);
      if !existed {
        cache.Put(key, IntV(0), Some(ttl), now);
      }
    }

    method Reset(now: int)
      modifies cache
      ensures cache.data == ResetStore(old(cache.data), key, maxAttempts, ttl, now)
    {
      cache.Put(key, UintV(maxAttempts), Some(ttl), now);
    }

    method Clear()
      modifies cache
      ensures cache.data == ForgetStore(old(cache.data), key)
    {
      cache.Forget(key);
    }

    method MustLock(now: int) returns (locked: bool, err: Option<Error>)
      modifies cache
      ensures (locked, err) == MustLockOf(ValueAt(old(cache.data), key, now), cache.caster)
      ensures cache.data == Evict(old(cache.data), key, now)
    {
      var v := cache.Cast(key, now);
      if v == NilV {
        return false, None;
      }
      var num := cache.caster.toInt(v);
      if num.None? {
        return true, Some(CastFailed);
      }
      return num.value <= 0, None;
    }

    method TotalAttempts(now: int) returns (total: Uint32, err: Option<Error>)
      modifies cache
      ensures (total, err) == TotalAttemptsOf(ValueAt(old(cache.data), key, now), maxAttempts, cache.caster)
      ensures cache.data == Evict(old(cache.data), key, now)
    {
      var v := cache.Cast(key, now);
      if v == NilV {
        return 0, None;
      }
      var num := cache.caster.toInt(v);
      if num.None? {
        return 0, Some(CastFailed);
      }
      var n := num.value;
      if n < maxAttempts {
        n := maxAttempts;
      }
      return U32(maxAttempts - U32(n)), None;
    }

    method RetriesLeft(now: int) returns (left: Uint32, err: Option<Error>)
      modifies cache
      ensures (left, err) == RetriesLeftOf(ValueAt(old(cache.data), key, now), cache.caster)
      ensures cache.data == Evict(old(cache.data), key, now)
    {
      var v := cache.Cast(key, now);
      if v == NilV {
        return 0, None;
      }
      var num := cache.caster.toInt(v);
      if num.None? {
        return 0, Some(CastFailed);
      }
      var n := num.value;
      if n < 0 {
        n := 0;
      }
      return U32(n), None;
    }

    method AvailableIn(now: int) returns (d: int)
      modifies cache
      ensures d == TtlOf(old(cache.data), key, now)
      ensures cache.data == Evict(old(cache.data), key, now)
    {
      d := cache.TTL(key, now);
    }
  }

  // ---------------------------------------------------------------------
  // Properties of the limiter

  /** `times` hits in order, each at its own instant. */
  function HitAll(s: Store, key: string, max: Uint32, ttl: int, times: seq<int>, c: Caster): Store
    decreases |times|
  {
    if times == [] then s
    else HitStore(HitAll(s, key, max, ttl, times[..|times| - 1], c), key, max, ttl, times[|times| - 1], c).1
  }

  /** A window of hits: non-decreasing instants, all before the window
      opened by the first one closes. */
  predicate InWindow(times: seq<int>, ttl: int) {
    && |times| > 0
    && (forall i, j :: 0 <= i <= j < |times| ==> times[i] <= times[j])
    && (forall i :: 0 <= i < |times| ==> times[i] <= times[0] + ttl)
  }

  /** Starting from no entry, every hit in one window consumes exactly one
      attempt: after k hits the counter reads maxAttempts - k (negative
      once exhausted, there is no floor) and the window is the one the
      first hit opened. */
  lemma {:induction false} HitsCountDown(s: Store, key: string, max: Uint32, ttl: int,
                                          times: seq<int>, c: Caster)
    requires Sound(c) && max >= 1
    requires InWindow(times, ttl) && |times| <= MaxInt64
    requires Lookup(s, key, times[0]).None?
    ensures var t := HitAll(s, key, max, ttl, times, c);
            && key in t
            && t[key].expiry == Some(times[0] + ttl)
            && c.toInt(t[key].data) == Some(max - |times|)
            && Lookup(t, key, times[|times| - 1]) == Some(t[key])
  {
    var k := |times|;
    var last := times[k - 1];
    if k == 1 {
      assert times[..0] == [];
      FreshHitStep(s, key, max, ttl, last, c);
    } else {
      var prefix := times[..k - 1];
      PrefixInWindow(times, ttl);
      HitsCountDown(s, key, max, ttl, prefix, c);
      var t0 := HitAll(s, key, max, ttl, prefix, c);
      assert last <= times[0] + ttl;
      CountedHitStep(t0, key, max, ttl, last, max - (k - 1), c);
    }
  }

  lemma PrefixInWindow(times: seq<int>, ttl: int)
    requires InWindow(times, ttl) && |times| > 1
    ensures InWindow(times[..|times| - 1], ttl) && times[..|times| - 1][0] == times[0]
  {
  }

  /** One hit with no entry stores maxAttempts - 1 with a fresh window. */
  lemma FreshHitStep(s: Store, key: string, max: Uint32, ttl: int, now: int, c: Caster)
    requires Sound(c) && max >= 1 && Lookup(s, key, now).None?
    ensures var t := HitStore(s, key, max, ttl, now, c).1;
            key in t && t[key].expiry == Some(now + ttl) && c.toInt(t[key].data) == Some(max - 1)
  {
  }

  /** One hit on a live counter n takes one off and keeps the window. */
  lemma CountedHitStep(s: Store, key: string, max: Uint32, ttl: int, now: int, n: int, c: Caster)
    requires Sound(c) && MinInt64 < n <= MaxInt64
    requires Lookup(s, key, now).Some? && c.toInt(s[key].data) == Some(n)
    ensures var t := HitStore(s, key, max, ttl, now, c).1;
            key in t && t[key].expiry == s[key].expiry && c.toInt(t[key].data) == Some(n - 1)
  {
  }

  /** The exhaustion scenario: after maxAttempts hits or more in one
      window, no retries are left and MustLock holds; fewer hits leave
      maxAttempts - k retries and MustLock false. */
  lemma Exhaustion(s: Store, key: string, max: Uint32, ttl: int, times: seq<int>, c: Caster)
    requires Sound(c) && max >= 1
    requires InWindow(times, ttl) && |times| <= MaxInt64
    requires Lookup(s, key, times[0]).None?
    ensures var v := ValueAt(HitAll(s, key, max, ttl, times, c), key, times[|times| - 1]);
            && (|times| >= max ==> RetriesLeftOf(v, c) == (0, None) && MustLockOf(v, c) == (true, None))
            && (|times| < max ==> RetriesLeftOf(v, c) == (max - |times|, None) && MustLockOf(v, c) == (false, None))
  {
    HitsCountDown(s, key, max, ttl, times, c);
  }

  /** The first hit consumes one attempt and opens the window. */
  lemma FirstHit(s: Store, key: string, max: Uint32, ttl: int, now: int, c: Caster)
    requires Sound(c) && max >= 1 && ttl >= 0
    requires Lookup(s, key, now).None?
    ensures var r := HitStore(s, key, max, ttl, now, c);
            && r.0 == None
            && RetriesLeftOf(ValueAt(r.1, key, now), c) == (max - 1, None)
            && TtlOf(r.1, key, now) == ttl
  {
  }

  /** With maxAttempts = 0 the first hit's maxAttempts-1 wraps in uint32:
      the limiter then reports 4294967295 retries and is not locked. */
  lemma FirstHitZeroBudget(s: Store, key: string, ttl: int, now: int, c: Caster)
    requires Sound(c) && ttl >= 0
    requires Lookup(s, key, now).None?
    ensures var r := HitStore(s, key, 0, ttl, now, c);
            && RetriesLeftOf(ValueAt(r.1, key, now), c) == (MaxUint32, None)
            && MustLockOf(ValueAt(r.1, key, now), c) == (false, None)
  {
  }

  /** After Lock, MustLock holds for the rest of the window; an existing
      window keeps its TTL. */
  lemma LockLocks(s: Store, key: string, ttl: int, now: int, later: int, c: Caster)
    requires Sound(c) && ttl >= 0 && now <= later
    requires Lookup(s, key, now).None? ==> later <= now + ttl
    requires Lookup(s, key, now).Some? ==> Lookup(s, key, later).Some?
    ensures var t := LockStore(s, key, ttl, now);
            && MustLockOf(ValueAt(t, key, later), c) == (true, None)
            && RetriesLeftOf(ValueAt(t, key, later), c) == (0, None)
            && (Lookup(s, key, now).Some? ==> TtlOf(t, key, later) == TtlOf(s, key, later))
  {
  }

  /** After Reset, within the new window, all attempts are available and
      the limiter is unlocked (for a positive budget). */
  lemma ResetRestores(s: Store, key: string, max: Uint32, ttl: int, now: int, later: int, c: Caster)
    requires Sound(c) && now <= later <= now + ttl
    ensures var v := ValueAt(ResetStore(s, key, max, ttl, now), key, later);
            && RetriesLeftOf(v, c) == (max, None)
            && MustLockOf(v, c) == (max == 0, None)
            && TotalAttemptsOf(v, max, c) == (0, None)
  {
  }

  /** After Clear, the limiter reads as fresh. */
  lemma ClearForgets(s: Store, key: string, max: Uint32, now: int, c: Caster)
    ensures var v := ValueAt(ForgetStore(s, key), key, now);
            && RetriesLeftOf(v, c) == (0, None)
            && MustLockOf(v, c) == (false, None)
            && TotalAttemptsOf(v, max, c) == (0, None)
  {
  }

  /** As written, TotalAttempts never counts a hit: after k < maxAttempts
      hits in one window it still reports 0 (5 allowed, 1 hit: 0, not 1). */
  lemma TotalAttemptsIgnoresHits(s: Store, key: string, max: Uint32, ttl: int, times: seq<int>, c: Caster)
    requires Sound(c) && max >= 1
    requires InWindow(times, ttl) && |times| <= max
    requires Lookup(s, key, times[0]).None?
    ensures TotalAttemptsOf(ValueAt(HitAll(s, key, max, ttl, times, c), key, times[|times| - 1]), max, c)
            == (0, None)
  {
    HitsCountDown(s, key, max, ttl, times, c);
  }

  /** The documented count: after k hits in one window, k attempts are
      reported as used (up to maxAttempts), and used + left == maxAttempts. */
  lemma UsedAttemptsCountHits(s: Store, key: string, max: Uint32, ttl: int, times: seq<int>, c: Caster)
    requires Sound(c) && max >= 1
    requires InWindow(times, ttl) && |times| <= MaxInt64
    requires Lookup(s, key, times[0]).None?
    ensures var v := ValueAt(HitAll(s, key, max, ttl, times, c), key, times[|times| - 1]);
            && UsedAttemptsOf(v, max, c) == (if |times| <= max then |times| else max, None)
            && UsedAttemptsOf(v, max, c).0 + RetriesLeftOf(v, c).0 == max
  {
    HitsCountDown(s, key, max, ttl, times, c);
  }
}
