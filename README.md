# go-universal/cache in Dafny

A model of the core of the Go package `cache`. The package has a storage-agnostic
key/value `Cache` interface with TTLs and integer counters. The model covers:

- its in-memory backend (`memCache`), which expires entries lazily;
- the two primitives written against the interface: a fixed-window rate limiter
  and a one-time verification code;
- the string helpers in utils.go.

Time is an explicit integer clock `now` (same unit as a TTL). A TTL `d` given at
`now` expires at `now + d`. An entry expires once that instant is strictly in the
past. Integer results follow the source's widths: int64 for Increment/Decrement,
uint32 for the limiter's counts.

Files and modules:

- `wrappers.dfy` (`Wrappers`): `Option`, standing for Go's nil.
- `cache.dfy` (`CacheContract`): the `Cache` interface. It holds:
  - the tagged stored value `Value` (`NilV | IntV | UintV | StrV | OtherV`);
  - `Record` (a value and an optional absolute expiry);
  - the abstract `Store = map<string, Record>`;
  - the coercion facade `Caster`, whose conversions are abstract partial
    functions. Its predicate `Sound` only says that integers and strings
    convert to themselves;
  - for every operation, the postcondition its doc comment promises, as a
    predicate over the store before and after the call (`PutPost`,
    `UpdatePost`, `PutOrUpdatePost`, `GetPost`, `PullPost`, `ExistsPost`,
    `ForgetPost`, `TtlPost`, `NumericPost`).
- `cache_mem.dfy` (`MemStore`): the in-memory backend.
  - One function per operation gives its exact effect on the map. Each
    function's `ensures` is the interface postcondition it meets.
  - Class `MemCache` is the backend. Its `data` map is updated in place, and
    its methods are tied to those functions.
  - `Read` models `read`: a lookup that deletes an entry found expired.
- `limiter.dfy` (`RateLimit`) and `verification.dfy` (`Verify`): the derived
  primitives.
  - The state-changing operations are methods that call the backend's methods.
    Each is tied to a store function built from the backend's functions, so its
    properties follow from the interface postconditions.
  - The read-only operations read the entry once and apply a pure function
    (`MustLockOf`, `RetriesLeftOf`, `TotalAttemptsOf`, `CodeOf`, `ValidateOf`).
- `utils.dfy` (`Utils`): `safeValue`, `slugify`, `cacheKey` and `randomString`.
  The three regular-expression passes of `slugify` are character-level
  functions. `randomString` fills an array with characters chosen
  nondeterministically from the alphabet.

Where the code departs from what its documentation or evident intent suggests, the model follows the code:

- `TotalAttempts` is documented as returning how many attempts were made
  (limiter.go:27), but it does not clamp the counter into `[0, maxAttempts]`. It
  raises every counter below `maxAttempts` up to `maxAttempts` (see Findings).
- `read` deletes an expired entry without re-checking it after taking the write
  lock.
- `Update` and `modifyNumericValue` read and write in two separate critical
  sections.
- Whitespace in `slugify` input is deleted, not turned into `-`. The pass that
  strips invalid characters runs first.
- An entry is still live at the exact instant of its expiry. The code drops it
  only when the expiry is strictly before the current time (`Before`), not from
  the instant itself (`Expired`, `PutThenGet`).
- `MustLock` reports locked (`true`) together with the error when the stored
  value does not convert to a number (limiter.go:102-105), not `false`.

## Model

| member | source | states |
|---|---|---|
| CacheContract.Wrap64 | cache_mem.go:183 | int64 result of `op(num, value)`: in range, congruent to the exact sum modulo 2^64, equal to it when it fits |
| CacheContract.U32 | limiter.go:65 | uint32 conversion: congruent modulo 2^32, identity on 0..4294967295 |
| CacheContract.Expired | cache_mem.go:155 | an entry without expiry never expires; one is still live at its expiry instant; expired means expiry strictly before now |
| CacheContract.ExpiryAt | cache_mem.go:35-39 | no TTL gives no expiry; a TTL of d keeps the entry live through now + d and expired just after |
| CacheContract.ExpiredStays | cache_mem.go:145-162 | once an entry has expired, every later read sees it absent (nil value), whether or not it was dropped yet |
| CacheContract.Wrap64Add | cache_mem.go:128-134 | wrapping an int64 operand before adding gives the same int64 sum |
| MemStore.Evict | cache_mem.go:149-164 | read's side effect changes nothing but may drop `k`; afterwards `k` is in the map iff it was live |
| MemStore.PutStore | cache.go:11-14 | Put stores the value with expiry now+ttl (none for nil ttl), overwriting; other keys unchanged |
| MemStore.UpdateStore | cache.go:16-18 | Update returns true iff the key is live; then only the value changes and the expiry is kept; otherwise nothing observable changes |
| MemStore.PutOrUpdateStore | cache.go:20-24 | a live key keeps its expiry and gets the value; otherwise stored with the given ttl (none if nil) |
| MemStore.PullStore | cache.go:30-32 | returns the value Get would (nil when absent), and the key is gone |
| MemStore.ForgetStore | cache.go:42-44 | the key is gone, nothing else changes |
| MemStore.TtlOf | cache_mem.go:115-126 | 0 when absent, MaxInt64 without expiry, expiry − now otherwise; never negative |
| MemStore.ModifyStore | cache_mem.go:167-186 | absent: (false, nil); non-numeric: "not numeric" error, no change; else int64(old + delta), expiry kept, other keys unchanged |
| MemStore.DecrementStore | cache.go:54-56 | Decrement: the same, with old − delta |
| MemStore.MemCache.constructor | cache_mem.go:24-29 | a new backend has an empty map |
| MemStore.MemCache.Put | cache_mem.go:31-46 | the map becomes PutStore of the old map |
| MemStore.MemCache.Update | cache_mem.go:48-60 | result and new map are UpdateStore of the old map |
| MemStore.MemCache.PutOrUpdate | cache_mem.go:62-73 | the new map is PutOrUpdateStore of the old map |
| MemStore.MemCache.Get | cache_mem.go:75-82 | returns the live value or nil; only an expired `k` is dropped |
| MemStore.MemCache.Pull | cache_mem.go:84-95 | returns Get's value and removes the key (PullStore) |
| MemStore.MemCache.Cast | cache_mem.go:97-100 | hands Get's value to the cast library |
| MemStore.MemCache.Exists | cache_mem.go:102-105 | true iff the key is live; only an expired `k` is dropped |
| MemStore.MemCache.Forget | cache_mem.go:107-113 | removes the key (ForgetStore) |
| MemStore.MemCache.TTL | cache_mem.go:115-126 | returns TtlOf of the old map |
| MemStore.MemCache.Increment | cache_mem.go:128-130 | result, error and new map are ModifyStore with +value |
| MemStore.MemCache.Decrement | cache_mem.go:132-134 | result, error and new map are DecrementStore |
| MemStore.MemCache.Read | cache_mem.go:144-165 | returns the live record, and deletes the entry when it has expired |
| MemStore.MemCache.ModifyNumeric | cache_mem.go:167-186 | result, error and new map are ModifyStore |
| MemStore.PutThenGet | cache_mem.go:31-46 | after Put, Get returns the value up to and including the expiry, and nil strictly after it |
| MemStore.PutOverwrites | cache_mem.go:41-44 | a second Put replaces the first record, its expiry included |
| MemStore.EvictUnobservable | cache_mem.go:154-162 | deleting an expired entry changes no read of any key at `now` or later |
| MemStore.UpdateKeepsTtl | cache_mem.go:48-60 | Update after Put returns true, leaves TTL unchanged and makes Get return the new value |
| MemStore.UpdateAbsentNoWrite | cache_mem.go:49-52 | Update on an absent or expired key returns false and changes no read |
| MemStore.PutOrUpdateCases | cache_mem.go:62-73 | PutOrUpdate is Update on a live key and Put on an absent one |
| MemStore.ForgetIdempotent | cache_mem.go:107-113 | Forget twice equals Forget once; Exists is false afterwards |
| MemStore.IncrementDecrementRoundTrip | cache_mem.go:128-134 | Decrement(k, d) after Increment(k, d) restores the int64 counter and its record exactly |
| MemStore.IncrementsAccumulate | cache_mem.go:168-186 | n increments by one end at int64(v0 + n), expiry kept, other keys unchanged |
| MemStore.IncrementStep | cache_mem.go:168-186 | one increment by one of a live int64 counter n stores int64(n + 1) and keeps its expiry and every other key |
| MemStore.NonNumericRejected | cache_mem.go:174-178 | a value that does not coerce gives "value is not numeric" and no change |
| RateLimit.KeyFor | limiter.go:51 | the key is "limiter " followed by the name |
| RateLimit.HitStore | limiter.go:58-69 | no entry: stores uint32(max−1) with a fresh window; counter n: stores int64(n−1), window kept; non-numeric: error, no change |
| RateLimit.LockStore | limiter.go:71-82 | the counter becomes 0; a live entry keeps its window, else a fresh one |
| RateLimit.ResetStore | limiter.go:84-86 | stores maxAttempts with a fresh window, whatever was there |
| RateLimit.MustLockOf | limiter.go:92-108 | nil: not locked; unconvertible: locked with error; else locked iff counter ≤ 0 |
| RateLimit.RetriesLeftOf | limiter.go:132-152 | 0 for nil or on error; otherwise max(counter, 0) |
| RateLimit.TotalAttemptsOf | limiter.go:110-130 | 0 for nil or error, 0 for every counter ≤ maxAttempts, 2^32 + max − counter above it |
| RateLimit.UsedAttemptsOf | limiter.go:27-29 | the documented count of used attempts: 0 with nothing stored, at most maxAttempts, maxAttempts − counter for counters in range, 0 above the budget and maxAttempts below zero |
| RateLimit.Limiter.constructor | limiter.go:48-56 | the limiter keeps key "limiter "+name, its budget, window and cache |
| RateLimit.Limiter.Hit | limiter.go:58-69 | error and new store are HitStore of the old store |
| RateLimit.Limiter.Lock | limiter.go:71-82 | the new store is LockStore of the old store |
| RateLimit.Limiter.Reset | limiter.go:84-86 | the new store is ResetStore of the old store |
| RateLimit.Limiter.Clear | limiter.go:88-90 | the entry is forgotten |
| RateLimit.Limiter.MustLock | limiter.go:92-108 | returns MustLockOf of the value read |
| RateLimit.Limiter.TotalAttempts | limiter.go:110-130 | returns TotalAttemptsOf of the value read |
| RateLimit.Limiter.RetriesLeft | limiter.go:132-152 | returns RetriesLeftOf of the value read |
| RateLimit.Limiter.AvailableIn | limiter.go:154-161 | returns the entry's TTL |
| RateLimit.FreshHitStep | limiter.go:58-69 | a hit with no live entry stores maxAttempts − 1 with expiry now + ttl |
| RateLimit.CountedHitStep | limiter.go:58-69 | a hit on a live counter n stores n − 1 and keeps the entry's expiry |
| RateLimit.HitsCountDown | limiter.go:58-69 | from no entry, k hits in one window leave counter maxAttempts − k (no floor) in the window opened by the first hit |
| RateLimit.Exhaustion | limiter.go:58-69 | after ≥ maxAttempts hits: RetriesLeft 0 and MustLock true; after fewer: maxAttempts − k left and not locked |
| RateLimit.FirstHit | limiter.go:64-65 | the first hit leaves maxAttempts − 1 retries and a TTL equal to the window |
| RateLimit.FirstHitZeroBudget | limiter.go:65 | with maxAttempts 0 the first hit wraps to 4294967295 retries, unlocked |
| RateLimit.LockLocks | limiter.go:71-82 | after Lock, MustLock is true and RetriesLeft 0 in the window; a live window keeps its TTL |
| RateLimit.ResetRestores | limiter.go:84-86 | after Reset: RetriesLeft = maxAttempts, MustLock iff maxAttempts = 0, TotalAttempts 0 |
| RateLimit.ClearForgets | limiter.go:88-90 | after Clear: RetriesLeft 0, not locked, TotalAttempts 0, no error |
| RateLimit.TotalAttemptsIgnoresHits | limiter.go:125-129 | as written, TotalAttempts reports 0 after any k ≤ maxAttempts hits |
| RateLimit.UsedAttemptsCountHits | limiter.go:27-29 | the documented count reports min(k, maxAttempts) after k hits, and used + left = maxAttempts |
| Verify.KeyFor | verification.go:39 | the key is "verify " followed by the name |
| Verify.SetStore | verification.go:45-56 | a pending code is overwritten and keeps its window; otherwise stored with a fresh window |
| Verify.CodeOf | verification.go:75-86 | "" when nothing is stored; a stored string is returned as is; "" on a conversion error |
| Verify.ValidateOf | verification.go:88-95 | true iff the supplied code is non-empty and equals the stored code read without error; read errors are passed on |
| Verify.Verification.constructor | verification.go:37-43 | keeps key "verify "+name, window and cache |
| Verify.Verification.Set | verification.go:45-56 | the new store is SetStore of the old store |
| Verify.Verification.Generate | verification.go:58-69 | returns `count` decimal digits, stored with Set |
| Verify.Verification.Clear | verification.go:71-73 | the code is forgotten |
| Verify.Verification.Get | verification.go:75-86 | returns CodeOf of the value read |
| Verify.Verification.Validate | verification.go:88-95 | returns ValidateOf of the value read |
| Verify.Verification.Exists | verification.go:97-99 | true iff a live code is stored |
| Verify.Verification.TTL | verification.go:101-103 | returns the code's TTL |
| Verify.SetThenValidate | verification.go:45-95 | a Set code is returned by Get and validates for its window; any other code does not |
| Verify.SetKeepsTtl | verification.go:45-56 | Set on a pending code leaves its TTL unchanged |
| Verify.EmptyNeverValidates | verification.go:91 | an empty supplied code never validates |
| Verify.EmptyStoredNeverValidates | verification.go:91 | an empty stored code validates nothing, without error |
| Verify.ClearInvalidates | verification.go:71-73 | after Clear no code validates, without error |
| Verify.GenerateRoundTrip | verification.go:58-69 | a code of `count` > 0 digits, as Generate makes, is what Get returns after Set, and it validates; a code of any other length does not |
| Verify.KeysNeverCollide | verification.go:39 | a limiter key never equals a verification key |
| Utils.SafeValue | utils.go:10-16 | the fallback for nil, the pointee otherwise |
| Utils.Join | utils.go:35 | the first key leads the result and `sep` follows it when there is a second key; with a separator free of letters and digits, the letters and digits are those of the keys, in order |
| Utils.JoinAppend | utils.go:35 | joining two non-empty key lists is their joins with `sep` between them |
| Utils.JoinSnoc | utils.go:35 | one more key appends "-" and the key |
| Utils.StripInvalid | utils.go:36 | the result holds only ASCII letters, digits and '-'; a single character is kept iff valid; letters and digits all survive, in order |
| Utils.StripInvalidAppend | utils.go:36 | deletion distributes over concatenation, so with the one-character case it fixes the result completely |
| Utils.DashSpaces | utils.go:37 | no whitespace is left, the result is no longer, and letters and digits are unchanged |
| Utils.CollapseDashes | utils.go:38 | the result is no longer and its letters and digits are unchanged |
| Utils.DashSpacesCons | utils.go:37 | one step: whitespace before whitespace is dropped, whitespace before anything else becomes '-', other characters are kept |
| Utils.DashSpacesSplit | utils.go:37 | the pass works piecewise wherever no whitespace run is cut in two |
| Utils.DashSpacesRun | utils.go:37 | two adjacent whitespace characters give the same result as one |
| Utils.DashSpacesHead | utils.go:37 | whitespace not followed by whitespace becomes '-' |
| Utils.DashSpacesSingle | utils.go:37 | a lone whitespace character between non-whitespace becomes exactly one '-' |
| Utils.NoSpaceUnchanged | utils.go:37 | a string without whitespace passes unchanged |
| Utils.CollapseCons | utils.go:38 | a character that does not start a dash run is kept in front |
| Utils.CollapseSplit | utils.go:38 | collapsing works piecewise wherever no dash run is cut in two |
| Utils.CollapseDoubleDash | utils.go:38 | "--" anywhere gives the same result as "-", so every run of dashes becomes one '-' |
| Utils.CollapseLeft | utils.go:38 | collapsing a prefix first does not change the result |
| Utils.AlnumAppend | utils.go:30-40 | filtering letters and digits distributes over concatenation |
| Utils.Slugify | utils.go:30-40 | the result holds only ASCII letters, digits and '-', never "--", and exactly the letters and digits of the joined keys, in order |
| Utils.CacheKey | utils.go:18-28 | slug(prefix) ":" slug(keys) when the prefix slug is non-empty, else slug(keys) with no ':' |
| Utils.RandomString | utils.go:42-56 | "" for an empty alphabet; otherwise n characters, all from the alphabet |
| Utils.StripInvalidKeepsSlug | utils.go:36 | stripping leaves a string of valid characters unchanged |
| Utils.NoSpaceInSlug | utils.go:36-37 | the whitespace pass is the identity after stripping |
| Utils.CollapseKeepsSlug | utils.go:38 | collapsing dashes keeps only valid characters |
| Utils.CollapseHead | utils.go:38 | collapsing dashes keeps the first character |
| Utils.CollapseNoDoubleDash | utils.go:38 | after collapsing there is no "--" |
| Utils.CollapseKeepsClean | utils.go:38 | collapsing leaves a string without "--" unchanged |
| Utils.StripJoinAppend | utils.go:35-36 | the stripped join of keys plus k is the stripped join of keys, '-', and stripped k |
| Utils.SlugifyAppend | utils.go:30-40 | adding a key k gives collapse(slugify(keys) + "-" + strip(k)): keys are separated by one '-' |
| Utils.SlugifyTwoKeys | utils.go:30-40 | slugify("a", "b") = "a-b" |
| Utils.SlugifyDashSeam | utils.go:30-40 | slugify("a-", "-b") = "a-b": a run of dashes at the seam becomes one |
| Utils.SlugifyIdempotent | utils.go:30-40 | slugify(slugify(x)) = slugify(x) |
| Utils.WhitespaceDeleted | utils.go:35-37 | "a b" becomes "ab" |
| Utils.NoColonInSlug | utils.go:32 | a slug never contains ':' |
| Utils.CacheKeyInjective | utils.go:18-28 | equal keys with non-empty prefixes have the same prefix slug and key slug |

## Findings

| source | as written | input that shows it | evidently intended | confidence | as-written member | corrected member |
|---|---|---|---|---|---|---|
| limiter.go:125-129 | a counter below maxAttempts is raised to maxAttempts, so the result is 0 for every counter ≤ maxAttempts and wraps above it | maxAttempts = 5, one Hit (counter 4): TotalAttempts returns 0, not 1 | clamp the counter into [0, maxAttempts] and return maxAttempts − counter | high (not executed) | RateLimit.TotalAttemptsIgnoresHits | RateLimit.UsedAttemptsCountHits |

`Limiter.TotalAttempts` keeps the as-written behaviour. `UsedAttemptsOf` is the
corrected count, and `UsedAttemptsCountHits` proves it reports the hits made.

## Left out

- cache_redis.go, queue.go, queue_redis.go: network calls to Redis. The remote backend is not part of this model.
- The Go interfaces `Cache`, `RateLimiter` and `VerificationCode` are not modelled as types. The limiter and the verification code hold a `MemCache`. Their properties are proved from the backend functions' postconditions, which are the `CacheContract` predicates.
- `IncrementFloat`, `DecrementFloat`, `modifyFloatValue`: floating-point arithmetic. Floats are only the opaque `OtherV`.
- `sync.RWMutex`: the model is sequential. Not covered:
  - the unlocked window in `read` between RUnlock and Lock, where a concurrently stored fresh entry can be deleted;
  - the lost updates possible between the read and the write of `Update` and `modifyNumericValue`.
- The `github.com/go-universal/cast` library is not part of this model. Its conversions are the abstract `Caster` functions, and only `Sound` is assumed of them.
- Wall-clock time: every time-dependent operation takes `now`, and one call observes one instant. Saturation of `time.Time`/`time.Duration` arithmetic is not modelled, so `ExpiryAt` and `TtlOf` use unbounded integers.
- Error results that the in-memory backend always returns as nil are dropped, for example Put's error. Also dropped: the error branch after `Cast` in the limiter and verification code, and Generate's error from `randomString`, which is always nil.
- `math/rand` in `randomString`: each character is a nondeterministic choice from the alphabet. Indexing a non-ASCII alphabet by bytes is not modelled, because strings are sequences of characters.
- Go's `regexp` engine: the three replacements of `slugify` are written as character-level functions.
- RateLimit.RetriesLeftOf: the ensures say nothing about counters above 4294967295, which the uint32 conversion truncates (the body models the truncation).
- RateLimit.TotalAttemptsOf: the ensures say nothing about counters above 4294967295 (the body models the truncation).
