/**
 * The in-memory backend (cache_mem.go).  The functions below give the
 * backend's exact effect on its map, each carrying the `Cache` interface
 * postcondition it meets; the class `MemCache` is the backend itself,
 * whose methods update `data` in place and are tied to those functions.
 * Lazy expiry: a read that finds an entry expired at `now` deletes it.
 */
module MemStore {
  import opened Wrappers
  import opened CacheContract

  /** The side effect of `read`: drop `k` if it has expired. */
  function Evict(s: Store, k: string, now: int): (t: Store)
    ensures ReadOnly(s, t, k, now)
    ensures k in t <==> Lookup(s, k, now).Some?
  {
    if k in s && Expired(s[k], now) then s - {k} else s
  }

  function PutStore(s: Store, k: string, v: Value, ttl: Option<int>, now: int): (t: Store)
    ensures PutPost(s, t, k, v, ttl, now)
  {
    s[k := Record(v, ExpiryAt(ttl, now))]
  }

  /** Update: (existed, new store). */
  function UpdateStore(s: Store, k: string, v: Value, now: int): (r: (bool, Store))
    ensures UpdatePost(s, r.1, k, v, now, r.0)
  {
    match Lookup(s, k, now)
    case None => (false, Evict(s, k, now))
    case Some(rec) => (true, s[k := Record(v, rec.expiry)])
  }

  /** PutOrUpdate: Update, and Put when the key did not exist. */
  function PutOrUpdateStore(s: Store, k: string, v: Value, ttl: Option<int>, now: int): (t: Store)
    ensures PutOrUpdatePost(s, t, k, v, ttl, now)
  {
    var u := UpdateStore(s, k, v, now);
    if u.0 then u.1 else PutStore(u.1, k, v, ttl, now)
  }

  /** Pull: Get followed by Forget. */
  function PullStore(s: Store, k: string, now: int): (r: (Value, Store))
    ensures PullPost(s, r.1, k, now, r.0)
  {
    (ValueAt(s, k, now), Evict(s, k, now) - {k})
  }

  function ForgetStore(s: Store, k: string): (t: Store)
    ensures ForgetPost(s, t, k)
  {
    s - {k}
  }

  /** The duration TTL reports. */
  function TtlOf(s: Store, k: string, now: int): (d: int)
    ensures TtlPost(s, Evict(s, k, now), k, now, d)
    ensures d >= 0
  {
    match Lookup(s, k, now)
    case None => 0
    case Some(r) =>
      if r.expiry.None? then MaxInt64 else r.expiry.value - now
  }

  /** modifyNumericValue with the signed amount `delta`:
      (existed, error, new store). */
  function ModifyStore(s: Store, k: string, delta: int, now: int, c: Caster)
    : (r: (bool, Option<Error>, Store))
    ensures NumericPost(s, r.2, k, delta, now, c, r.0, r.1)
  {
    match Lookup(s, k, now)
    case None => (false, None, Evict(s, k, now))
    case Some(rec) =>
      match c.toInt(rec.data)
      case None => (false, Some(NotNumeric), s)
      case Some(n) => (true, None, s[k := Record(IntV(Wrap64(n + delta)), rec.expiry)])
  }

  /** Decrement by `delta` is modifyNumericValue with `a - b`, which
      under int64 wrapping equals adding `-delta`. */
  function DecrementStore(s: Store, k: string, delta: int, now: int, c: Caster)
    : (r: (bool, Option<Error>, Store))
    ensures NumericPost(s, r.2, k, -delta, now, c, r.0, r.1)
  {
    ModifyStore(s, k, -delta, now, c)
  }

  class MemCache {
    var data: Store
    /** The cast library the backend coerces values with. */
    const caster: Caster

    /** NewMemoryCache: an empty map. */
    constructor (caster: Caster)
      ensures data == map[] && this.caster == caster
    {
      data := map[];
      this.caster := caster;
    }

    method Put(key: string, value: Value, ttl: Option<int>, now: int)
      modifies this
      ensures data == PutStore(old(data), key, value, ttl, now)
    {
      var expiry: Option<int> := None;
      if ttl.Some? {
        expiry := Some(now + ttl.value);
      }
      data := data[key := Record(value, expiry)];
    }

    method Update(key: string, value: Value, now: int) returns (existed: bool)
      modifies this
      ensures (existed, data) == UpdateStore(old(data), key, value, now)
    {
      var record := Read(key, now);
      if record.None? {
        return false;
      }
      data := data[key := record.value.(data := value)];
      return true;
    }

    method PutOrUpdate(key: string, value: Value, ttl: Option<int>, now: int)
      modifies this
      ensures data == PutOrUpdateStore(old(data), key, value, ttl, now)
    {
      var ok := Update(key, value, now);
      if !ok {
        Put(key, value, ttl, now);
      }
    }

    method Get(key: string, now: int) returns (v: Value)
      modifies this
      ensures v == ValueAt(old(data), key, now)
      ensures data == Evict(old(data), key, now)
      ensures GetPost(old(data), data, key, now, v)
    {
      var record := Read(key, now);
      if record.None? {
        return NilV;
      }
      return record.value.data;
    }

    method Pull(key: string, now: int) returns (v: Value)
      modifies this
      ensures (v, data) == PullStore(old(data), key, now)
    {
      v := Get(key, now);
      Forget(key);
    }

    /** Cast hands the value to the cast library; the conversions are
        those of `caster`. */
    method Cast(key: string, now: int) returns (v: Value)
      modifies this
      ensures v == ValueAt(old(data), key, now)
      ensures data == Evict(old(data), key, now)
      ensures GetPost(old(data), data, key, now, v)
    {
      v := Get(key, now);
    }

    method Exists(key: string, now: int) returns (b: bool)
      modifies this
      ensures b == Lookup(old(data), key, now).Some?
      ensures data == Evict(old(data), key, now)
      ensures ExistsPost(old(data), data, key, now, b)
    {
      var record := Read(key, now);
      b := record.Some?;
    }

    method Forget(key: string)
      modifies this
      ensures data == ForgetStore(old(data), key)
    {
      data := data - {key};
    }

    method TTL(key: string, now: int) returns (d: int)
      modifies this
      ensures d == TtlOf(old(data), key, now)
      ensures data == Evict(old(data), key, now)
    {
      var record := Read(key, now);
      if record.None? {
        return 0;
      }
      if record.value.expiry.None? {
        return MaxInt64;
      }
      return record.value.expiry.value - now;
    }

    method Increment(key: string, value: Int64, now: int) returns (existed: bool, err: Option<Error>)
      modifies this
      ensures (existed, err, data) == ModifyStore(old(data), key, value, now, caster)
    {
      existed, err := ModifyNumeric(key, value, now);
    }

    method Decrement(key: string, value: Int64, now: int) returns (existed: bool, err: Option<Error>)
      modifies this
      ensures (existed, err, data) == DecrementStore(old(data), key, value, now, caster)
    {
      existed, err := ModifyNumeric(key, -(value as int), now);
    }

    /** read: the live entry, deleting it when it has expired. */
    method Read(key: string, now: int) returns (record: Option<Record>)
      modifies this
      ensures record == Lookup(old(data), key, now)
      ensures data == Evict(old(data), key, now)
    {
      if key !in data {
        return None;
      }
      var val := data[key];
      if val.expiry.Some? && val.expiry.value < now {
        data := data - {key};
        return None;
      }
      return Some(val);
    }

    /** modifyNumericValue, with the operation folded into a signed amount. */
    method ModifyNumeric(key: string, delta: int, now: int) returns (existed: bool, err: Option<Error>)
      modifies this
      ensures (existed, err, data) == ModifyStore(old(data), key, delta, now, caster)
    {
      var record := Read(key, now);
      if record.None? {
        return false, None;
      }
      var num := caster.toInt(record.value.data);
      if num.None? {
        return false, Some(NotNumeric);
      }
      data := data[key := record.value.(data := IntV(Wrap64(num.value + delta)))];
      return true, None;
    }
  }

  // ---------------------------------------------------------------------
  // Properties of the backend

  /** After Put(k, v, ttl) at `now`, Get(k) returns v at every later time
      up to and including the expiry, and nil strictly after it. */
  lemma PutThenGet(s: Store, k: string, v: Value, ttl: Option<int>, now: int, later: int)
    requires now <= later
    ensures ValueAt(PutStore(s, k, v, ttl, now), k, later) ==
            if ttl.Some? && now + ttl.value < later then NilV else v
  {
  }

  /** Put overwrites any earlier record, its expiry included. */
  lemma PutOverwrites(s: Store, k: string, v1: Value, v2: Value, ttl1: Option<int>, ttl2: Option<int>,
                      now1: int, now2: int)
    ensures PutStore(PutStore(s, k, v1, ttl1, now1), k, v2, ttl2, now2) == PutStore(s, k, v2, ttl2, now2)
  {
  }

  /** Lazy expiry is invisible: dropping an expired entry changes no read
      at `now` or later, on any key. */
  lemma EvictUnobservable(s: Store, k: string, now: int, j: string, later: int)
    requires now <= later
    ensures Lookup(Evict(s, k, now), j, later) == Lookup(s, j, later)
  {
  }

  /** Update keeps the TTL: Update(k, v2) after Put(k, v1, ttl) leaves
      TTL(k) as it was while Get(k) now yields v2. */
  lemma UpdateKeepsTtl(s: Store, k: string, v1: Value, v2: Value, ttl: Option<int>,
                       now: int, later: int, probe: int)
    requires now <= later <= probe
    requires ttl.Some? ==> later <= now + ttl.value
    ensures var t := UpdateStore(PutStore(s, k, v1, ttl, now), k, v2, later);
            && t.0
            && TtlOf(t.1, k, probe) == TtlOf(PutStore(s, k, v1, ttl, now), k, probe)
            && ValueAt(t.1, k, probe) == if ttl.Some? && now + ttl.value < probe then NilV else v2
  {
  }

  /** Update on an absent or expired key writes nothing observable. */
  lemma UpdateAbsentNoWrite(s: Store, k: string, v: Value, now: int, later: int, j: string)
    requires Lookup(s, k, now).None? && now <= later
    ensures var t := UpdateStore(s, k, v, now);
            !t.0 && Lookup(t.1, j, later) == Lookup(s, j, later)
  {
  }

  /** PutOrUpdate on a live key is Update; on an absent one it is Put. */
  lemma PutOrUpdateCases(s: Store, k: string, v: Value, ttl: Option<int>, now: int)
    ensures Lookup(s, k, now).Some? ==>
              PutOrUpdateStore(s, k, v, ttl, now) == UpdateStore(s, k, v, now).1
    ensures Lookup(s, k, now).None? ==>
              PutOrUpdateStore(s, k, v, ttl, now) == PutStore(s, k, v, ttl, now)
  {
  }

  /** Forget is idempotent and Exists is false afterwards. */
  lemma ForgetIdempotent(s: Store, k: string, now: int)
    ensures ForgetStore(ForgetStore(s, k), k) == ForgetStore(s, k)
    ensures Lookup(ForgetStore(s, k), k, now).None?
  {
  }

  /** Decrement undoes Increment on an int64 counter, TTL included. */
  lemma IncrementDecrementRoundTrip(s: Store, k: string, n: int, d: int, now: int, c: Caster)
    requires Sound(c)
    requires MinInt64 <= n <= MaxInt64
    requires Lookup(s, k, now).Some? && s[k].data == IntV(n)
    ensures var up := ModifyStore(s, k, d, now, c);
            var down := DecrementStore(up.2, k, d, now, c);
            up.0 && down.0 && down.2 == s
  {
  }

  /** `count` increments by one at the same instant add up exactly:
      the counter ends at int64(v0 + count), with its TTL unchanged. */
  function IncrementTimes(s: Store, k: string, count: nat, now: int, c: Caster): Store
    decreases count
  {
    if count == 0 then s else ModifyStore(IncrementTimes(s, k, count - 1, now, c), k, 1, now, c).2
  }

  lemma {:induction false} IncrementsAccumulate(s: Store, k: string, v0: int, count: nat, now: int, c: Caster)
    requires Sound(c)
    requires MinInt64 <= v0 <= MaxInt64
    requires Lookup(s, k, now).Some? && s[k].data == IntV(v0)
    ensures var t := IncrementTimes(s, k, count, now, c);
            Holds(t, k, Record(IntV(Wrap64(v0 + count)), s[k].expiry)) && Others(s, t, k)
  {
    if count == 0 {
      assert Wrap64(v0) == v0;
      assert s[k] == Record(IntV(v0), s[k].expiry);
    } else {
      IncrementsAccumulate(s, k, v0, count - 1, now, c);
      var t := IncrementTimes(s, k, count - 1, now, c);
      var n := v0 + count - 1;
      IncrementStep(t, k, Wrap64(n), now, c);
      var u := ModifyStore(t, k, 1, now, c).2;
      assert u == IncrementTimes(s, k, count, now, c);
      assert Holds(u, k, Record(IntV(Wrap64(Wrap64(n) + 1)), s[k].expiry));
      Wrap64Add(n, 1);
      assert n + 1 == v0 + count;
      assert Holds(u, k, Record(IntV(Wrap64(v0 + count)), s[k].expiry));
    }
  }

  /** One increment by one of a live int64 counter. */
  lemma IncrementStep(s: Store, k: string, n: int, now: int, c: Caster)
    requires Sound(c) && MinInt64 <= n <= MaxInt64
    requires Lookup(s, k, now).Some? && s[k].data == IntV(n)
    ensures var t := ModifyStore(s, k, 1, now, c).2;
            Holds(t, k, Record(IntV(Wrap64(n + 1)), s[k].expiry)) && Others(s, t, k)
  {
  }

  /** A value that does not coerce makes Increment fail with
      "value is not numeric" and change nothing. */
  lemma NonNumericRejected(s: Store, k: string, delta: int, now: int, c: Caster)
    requires Lookup(s, k, now).Some? && c.toInt(s[k].data).None?
    ensures ModifyStore(s, k, delta, now, c) == (false, Some(NotNumeric), s)
  {
  }
}
