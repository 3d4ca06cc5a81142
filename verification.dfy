/**
 * The verification code manager (verification.go): one string code under
 * the key "verify " + name, with a validity window.  Set keeps a pending
 * code's window (Update, else Put); Validate is an exact match in which an
 * empty stored or supplied code never matches.
 */
module Verify {
  import opened Wrappers
  import opened CacheContract
  import opened MemStore
  import Utils
  import RateLimit

  const Digits: string := "0123456789"

  /** NewVerification's key. */
  function KeyFor(name: string): (key: string)
    ensures |key| == |name| + 7 && key[..7] == "verify " && key[7..] == name
  {
    "verify " + name
  }

  /** Set: Update, and Put with a fresh window when no code is pending
      (the update-else-put of PutOrUpdate). */
  function SetStore(s: Store, key: string, code: string, ttl: int, now: int): (t: Store)
    ensures Others(s, t, key)
    ensures Lookup(s, key, now).Some? ==> Holds(t, key, Record(StrV(code), s[key].expiry))
    ensures Lookup(s, key, now).None? ==> Holds(t, key, Record(StrV(code), Some(now + ttl)))
  {
    PutOrUpdateStore(s, key, StrV(code), Some(ttl), now)
  }

  /** Get, given the value Cast read: "" when nothing is stored,
      otherwise the cast library's string conversion. */
  function CodeOf(v: Value, c: Caster): (r: (string, Option<Error>))
    ensures v == NilV ==> r == ("", None)
    ensures Sound(c) && v.StrV? ==> r == (v.s, None)
    ensures r.1.Some? ==> r.0 == ""
  {
    if v == NilV then ("", None)
    else match c.toStr(v)
      case None => ("", Some(CastFailed))
      case Some(str) => (str, None)
  }

  /** Validate: true exactly when the stored code reads without error, is
      non-empty, and equals the supplied non-empty code; a read error is
      passed on with false. */
  function ValidateOf(v: Value, code: string, c: Caster): (r: (bool, Option<Error>))
    ensures r.0 <==> code != "" && CodeOf(v, c) == (code, None)
    ensures r.1 == CodeOf(v, c).1
  {
    var got := CodeOf(v, c);
    if got.1.Some? || got.0 == "" || code == "" then (false, got.1)
    else (got.0 == code, None)
  }

  class Verification {
    const key: string
    const ttl: int
    const cache: MemCache

    /** NewVerification. */
    constructor (name: string, ttl: int, cache: MemCache)
      ensures key == KeyFor(name) && this.ttl == ttl && this.cache == cache
    {
      key := "verify " + name;
      this.ttl := ttl;
      this.cache := cache;
    }

    method Set(code: string, now: int)
      modifies cache
      ensures cache.data == SetStore(old(cache.data), key, code, ttl, now)
    {
      var existed := cache.Update(key, StrV(code), now);
      if !existed {
        cache.Put(key, StrV(code), Some(ttl), now);
      }
    }

    /** Generate: a random code of `count` digits, stored with Set. */
    method Generate(count: nat, now: int) returns (code: string)
      modifies cache
      ensures |code| == count && forall i :: 0 <= i < |code| ==> '0' <= code[i] <= '9'
      ensures cache.data == SetStore(old(cache.data), key, code, ttl, now)
    {
      code := Utils.RandomString(count, Digits);
      Set(code, now);
    }

    method Clear()
      modifies cache
      ensures cache.data == ForgetStore(old(cache.data), key)
    {
      cache.Forget(key);
    }

    method Get(now: int) returns (code: string, err: Option<Error>)
      modifies cache
      ensures (code, err) == CodeOf(ValueAt(old(cache.data), key, now), cache.caster)
      ensures cache.data == Evict(old(cache.data), key, now)
    {
      var v := cache.Cast(key, now);
      if v == NilV {
        return "", None;
      }
      var str := cache.caster.toStr(v);
      if str.None? {
        return "", Some(CastFailed);
      }
      return str.value, None;
    }

    method Validate(code: string, now: int) returns (ok: bool, err: Option<Error>)
      modifies cache
      ensures (ok, err) == ValidateOf(ValueAt(old(cache.data), key, now), code, cache.caster)
      ensures cache.data == Evict(old(cache.data), key, now)
    {
      var c;
      c, err := Get(now);
      if err.Some? || c == "" || code == "" {
        return false, err;
      }
      return c == code, None;
    }

    method Exists(now: int) returns (b: bool)
      modifies cache
      ensures b == Lookup(old(cache.data), key, now).Some?
      ensures cache.data == Evict(old(cache.data), key, now)
    {
      b := cache.Exists(key, now);
    }

    method TTL(now: int) returns (d: int)
      modifies cache
      ensures d == TtlOf(old(cache.data), key, now)
      ensures cache.data == Evict(old(cache.data), key, now)
    {
      d := cache.TTL(key, now);
    }
  }

  // ---------------------------------------------------------------------
  // Properties of the verification code

  /** A code that was Set validates for the rest of its window, and no
      other code does. */
  lemma SetThenValidate(s: Store, key: string, code: string, other: string, ttl: int,
                        now: int, later: int, c: Caster)
    requires Sound(c) && code != "" && other != code && now <= later
    requires Lookup(s, key, now).None? ==> later <= now + ttl
    requires Lookup(s, key, now).Some? ==> Lookup(s, key, later).Some?
    ensures var v := ValueAt(SetStore(s, key, code, ttl, now), key, later);
            && CodeOf(v, c) == (code, None)
            && ValidateOf(v, code, c) == (true, None)
            && ValidateOf(v, other, c) == (false, None)
  {
    var t := SetStore(s, key, code, ttl, now);
    assert t[key].data == StrV(code);
  }

  /** Set on a pending code keeps its window: the TTL is unchanged. */
  lemma SetKeepsTtl(s: Store, key: string, code: string, ttl: int, now: int, later: int)
    requires Lookup(s, key, now).Some? && now <= later
    ensures TtlOf(SetStore(s, key, code, ttl, now), key, later) == TtlOf(s, key, later)
  {
  }

  /** Validate never accepts an empty code, whatever is stored. */
  lemma EmptyNeverValidates(v: Value, c: Caster)
    ensures !ValidateOf(v, "", c).0
  {
  }

  /** An empty stored code matches nothing. */
  lemma EmptyStoredNeverValidates(code: string, c: Caster)
    requires Sound(c)
    ensures ValidateOf(StrV(""), code, c) == (false, None)
  {
  }

  /** After Clear, no code validates, and no error is reported. */
  lemma ClearInvalidates(s: Store, key: string, code: string, now: int, c: Caster)
    ensures ValidateOf(ValueAt(ForgetStore(s, key), key, now), code, c) == (false, None)
  {
  }

  /** A code shaped as Generate makes it (count > 0 digits), once Set, is
      what Get returns and validates; a code of another length does not. */
  lemma GenerateRoundTrip(s: Store, key: string, count: nat, code: string, other: string,
                          ttl: int, now: int, c: Caster)
    requires Sound(c) && ttl >= 0
    requires count > 0 && |code| == count && forall i :: 0 <= i < |code| ==> '0' <= code[i] <= '9'
    requires |other| != count
    ensures var v := ValueAt(SetStore(s, key, code, ttl, now), key, now);
            && CodeOf(v, c) == (code, None)
            && ValidateOf(v, code, c) == (true, None)
            && ValidateOf(v, other, c) == (false, None)
  {
    SetThenValidate(s, key, code, other, ttl, now, now, c);
  }

  /** A limiter and a verification code never share a cache key. */
  lemma KeysNeverCollide(limiterName: string, verifyName: string)
    ensures RateLimit.KeyFor(limiterName) != KeyFor(verifyName)
  {
    assert RateLimit.KeyFor(limiterName)[0] == 'l';
    assert KeyFor(verifyName)[0] == 'v';
  }
}
