/**
 * The `Cache` interface (cache.go): the abstract state every backend
 * denotes, the integer widths the interface works in, the coercion facade
 * (`cast.Caster`) and, for every operation, the postcondition its doc
 * comment promises, written as a predicate over the store before (`s`) and
 * after (`t`) the call.  Time is an explicit integer clock `now`.
 */
module CacheContract {
  import opened Wrappers

  const MinInt64: int := -0x8000_0000_0000_0000
  const MaxInt64: int := 0x7fff_ffff_ffff_ffff
  const TwoTo64: int := 0x1_0000_0000_0000_0000
  const MaxUint32: int := 0xffff_ffff
  const TwoTo32: int := 0x1_0000_0000

  type Uint32 = x: int | 0 <= x <= 0xffff_ffff
  type Int64 = x: int | -0x8000_0000_0000_0000 <= x <= 0x7fff_ffff_ffff_ffff

  /** A stored Go value of dynamic type `any`, tagged by its kind.
      `OtherV` stands for every kind the model does not interpret
      (floats, booleans, structs). */
  datatype Value = NilV | IntV(i: int) | UintV(u: nat) | StrV(s: string) | OtherV

  /** An entry: the value and its absolute expiry time, if any. */
  datatype Record = Record(data: Value, expiry: Option<int>)

  type Store = map<string, Record>

  /** The only errors the core produces: the backend's failed numeric
      coercion, and a failed conversion inside the cast library. */
  datatype Error = NotNumeric | CastFailed

  /** The cast library's conversions, as partial functions. */
  datatype Caster = Caster(toInt: Value -> Option<int>, toStr: Value -> Option<string>)

  /** All the model assumes of the cast library: integers and strings
      convert to themselves. */
  ghost predicate Sound(c: Caster) {
    && (forall i :: MinInt64 <= i <= MaxInt64 ==> c.toInt(IntV(i)) == Some(i))
    && (forall u: nat :: u <= MaxInt64 ==> c.toInt(UintV(u)) == Some(u))
    && (forall s :: c.toStr(StrV(s)) == Some(s))
  }

  /** Two's-complement int64 arithmetic. */
  function Wrap64(x: int): (r: int)
    ensures MinInt64 <= r <= MaxInt64
    ensures (r - x) % TwoTo64 == 0
    ensures MinInt64 <= x <= MaxInt64 ==> r == x
  {
    (x - MinInt64) % TwoTo64 + MinInt64
  }

  /** Conversion to uint32: keep the low 32 bits. */
  function U32(x: int): (r: Uint32)
    ensures (r - x) % TwoTo32 == 0
    ensures 0 <= x <= MaxUint32 ==> r == x
  {
    x % TwoTo32
  }

  /** `expiry.Before(now)`: strictly in the past.  An entry without expiry
      never expires, and one is still live at the very instant of its
      expiry. */
  function Expired(r: Record, now: int): (b: bool)
    ensures r.expiry.None? ==> !b
    ensures r.expiry == Some(now) ==> !b
    ensures b ==> r.expiry.value < now
  {
    r.expiry.Some? && r.expiry.value < now
  }

  /** `time.Now().Add(*ttl)`, or no expiry when ttl is nil: a record
      stored with a TTL of d is live for exactly d more time units. */
  function ExpiryAt(ttl: Option<int>, now: int): (e: Option<int>)
    ensures ttl.None? <==> e.None?
    ensures ttl.Some? ==> !Expired(Record(NilV, e), now + ttl.value)
    ensures ttl.Some? ==> Expired(Record(NilV, e), now + ttl.value + 1)
  {
    match ttl
    case None => None
    case Some(d) => Some(now + d)
  }

  /** The entry a read at time `now` observes. */
  function Lookup(s: Store, k: string, now: int): Option<Record> {
    if k in s && !Expired(s[k], now) then Some(s[k]) else None
  }

  /** The value `Get` hands back: nil when absent. */
  function ValueAt(s: Store, k: string, now: int): Value {
    match Lookup(s, k, now)
    case None => NilV
    case Some(r) => r.data
  }

  /** Every key but `k` keeps its entry. */
  predicate Others(s: Store, t: Store, k: string) {
    t - {k} == s - {k}
  }

  predicate Holds(t: Store, k: string, r: Record) {
    k in t && t[k] == r
  }

  /** A read: nothing changes, except that an entry of `k` that has
      expired at `now` may be dropped. */
  predicate ReadOnly(s: Store, t: Store, k: string, now: int) {
    && Others(s, t, k)
    && (k in t ==> Holds(s, k, t[k]))
    && (Lookup(s, k, now).Some? ==> k in t)
  }

  /** Put: stores value with the given TTL (none when nil), overwriting. */
  predicate PutPost(s: Store, t: Store, k: string, v: Value, ttl: Option<int>, now: int) {
    Holds(t, k, Record(v, ExpiryAt(ttl, now))) && Others(s, t, k)
  }

  /** Update: true iff the key exists; then only the value changes. */
  predicate UpdatePost(s: Store, t: Store, k: string, v: Value, now: int, existed: bool) {
    && existed == Lookup(s, k, now).Some?
    && if existed then Holds(t, k, Record(v, s[k].expiry)) && Others(s, t, k)
       else ReadOnly(s, t, k, now)
  }

  /** PutOrUpdate: an existing key keeps its TTL, a new one gets `ttl`. */
  predicate PutOrUpdatePost(s: Store, t: Store, k: string, v: Value, ttl: Option<int>, now: int) {
    && Others(s, t, k)
    && Holds(t, k, Record(v, if Lookup(s, k, now).Some? then s[k].expiry else ExpiryAt(ttl, now)))
  }

  /** Get (and Cast): the live value, nil when absent. */
  predicate GetPost(s: Store, t: Store, k: string, now: int, v: Value) {
    v == ValueAt(s, k, now) && ReadOnly(s, t, k, now)
  }

  /** Pull: the value Get would return, and the key is gone. */
  predicate PullPost(s: Store, t: Store, k: string, now: int, v: Value) {
    v == ValueAt(s, k, now) && k !in t && Others(s, t, k)
  }

  /** Exists: true iff the key is present and unexpired. */
  predicate ExistsPost(s: Store, t: Store, k: string, now: int, b: bool) {
    b == Lookup(s, k, now).Some? && ReadOnly(s, t, k, now)
  }

  /** Forget: the key is gone, and nothing else changes. */
  predicate ForgetPost(s: Store, t: Store, k: string) {
    k !in t && Others(s, t, k)
  }

  /** TTL: zero when absent, the MaxInt64 sentinel when the entry never
      expires, otherwise the time left. */
  predicate TtlPost(s: Store, t: Store, k: string, now: int, d: int) {
    && ReadOnly(s, t, k, now)
    && match Lookup(s, k, now)
       case None => d == 0
       case Some(r) => d == (if r.expiry.None? then MaxInt64 else r.expiry.value - now)
  }

  /** Increment/Decrement by the signed amount `delta`: true iff the key
      exists and its value is numeric; then the value becomes the int64
      sum and the TTL stays. */
  predicate NumericPost(s: Store, t: Store, k: string, delta: int, now: int, c: Caster,
                        existed: bool, err: Option<Error>) {
    match Lookup(s, k, now)
    case None => !existed && err == None && ReadOnly(s, t, k, now)
    case Some(r) =>
      match c.toInt(r.data)
      case None => !existed && err == Some(NotNumeric) && t == s
      case Some(n) =>
        existed && err == None && Others(s, t, k)
        && Holds(t, k, Record(IntV(Wrap64(n + delta)), r.expiry))
  }

  /** Once an entry has expired, no later read observes it: Get gives nil
      and Exists false from then on, whether or not it was dropped yet. */
  lemma ExpiredStays(s: Store, k: string, now: int, later: int)
    requires k in s && Expired(s[k], now) && now <= later
    ensures Lookup(s, k, later).None? && ValueAt(s, k, later) == NilV
  {
  }

  /** int64 addition is compatible with wrapping its operand first. */
  lemma Wrap64Add(x: int, d: int)
    ensures Wrap64(Wrap64(x) + d) == Wrap64(x + d)
  {
  }
}
