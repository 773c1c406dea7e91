# cachete, modelled in Dafny

This project models the in-process cache engine of cachete, a Go library. It
has four parts:

- **Legacy store** (`cache.go`, module `LegacyCache`). `Cache` maps a string
  key to an `Item` of an absolute expiration time and a value. It has `Set`,
  `Get`, `Delete`, the sweep `Kills`, and the memoizer `Check`.
- **Tagged store** (`newcache.go`, module `TaggedCache`). `Cachete` maps the
  int64 FNV-1a hash of a key to an `item` of an expiration policy and a
  value. A tag index maps each tag to the list of hashes set under it. It
  has `Get`, `Set`, `addTag`, `Delete`, `delete`, `DeleteWithTag`, `Kills`
  and the memoizer `ExecuteAndCache`. The hash `stringToInt64Hash` is in
  module `Fnv`.
- **Expiration policies** (`expire/time.go`, module `Expire`). These are the
  three `Expirator` variants, their `Expire` predicate, the constructors `In`
  and `WithTag`, and the mutable default lifetime.
- **Ristretto memoizer** (`rache/ristretto_cache.go`, module `Rache`).
  `FuncCache` memoizes over a ristretto cache and uses the unhashed key from
  `toString`/`createParameterHash`.

Shared pieces:

- `GoModel` holds the Go values: byte strings, int64, instants, `any`, and
  the `fn` argument.
- `Keys` holds key derivation: the parameter string, lowercase Base16
  (section 8 of RFC 4648), and the SHA-256 key.
- `Memo` holds `reflectValue` and `Decide`, the control flow all three
  memoizers share.

How the Go program is represented:

- **Time.** Time is an integer number of nanoseconds. Each call of
  `time.Now()` becomes a parameter: `now` for `Set`, `Get` and `Kills`.
  `Check` has two: `now` at its `Get` and `later` at its `Set`, after `fn`
  has run.
- **Strings.** Go strings are byte sequences (`seq<byte>`).
- **`any` values.** `Any<T>` is the nil interface, a non-pointer value, or a
  pointer that may be nil. `reflectValue` dereferences a pointer and copies
  anything else. A nil value panics.
- **`fn`.** `fn` is the nil interface, a non-function value, or a function
  with a runtime name and a call. The call returns a value and an optional
  error, or panics.
- **Panics.** Every memoizer recovers from a panic and then returns a nil
  error, because its result is unnamed. The model returns `None` as the
  error in those cases and leaves the result unwritten. A nil `fn` is one
  such case: `reflect.TypeOf(nil).Kind()` panics, so the memoizer returns a
  nil error, not "fn must be a function".
- **Memoizer results.** Each memoizer method returns three things: the
  error, the `any` that `*result` holds afterwards (`None` if it was not
  assigned), and whether `fn` was called.
- **Declared result kind.** `reflectValue` dereferences a value whose
  `Kind()` is `Ptr`. On a hit that is the kind of the cached value itself.
  On a miss it is the kind of `res[0]` from `reflect.Call`, which is fn's
  declared first-result kind. So `fn` carries a flag `anyResult`: its first
  result is declared with an interface type such as `any`.
- **Specification functions.** The store methods are imperative and mutate
  maps held in class fields. Each method is proved equal to a function of
  the old state (`AfterSet`, `AfterKills`, `CheckSpec`, ...). The lemmas are
  stated about those functions.

The model follows the code where it differs from the documented intent:

- `Expire(t)` is `t.Before(deadline)`. It holds while the deadline has not
  been reached. So `Cachete.Kills` deletes the live items and keeps the
  expired ones.
- `Cachete.Get` never looks at the expiration.
- `Cache.Get` deletes the literal key `"key"` when it meets an expired item.
  The expired item itself stays in place.
- `Cache.Kills` keeps an item whose expiration time equals `now`, although
  `Get` no longer returns it.
- The tag index is never pruned. After a key is overwritten without a tag,
  `DeleteWithTag` on its old tag still deletes it.
- The parameter separator `_` is not escaped. A call `f("a_b")` and a call
  `f("a", "b")` share a memo key.
- For `fn` whose first result is declared `any`, a miss and the hit after
  it write different things. A returned pointer is written as the pointer
  on the miss and dereferenced on the hit. A returned nil is written on the
  miss, and the hit panics on it and leaves `*result` unassigned.

## Model

| member | source | states |
|---|---|---|
| `Fnv.ToInt64` | newcache.go:92 | the uint64-to-int64 conversion: non-negative exactly below 2^63, and congruent to the digest modulo 2^64 |
| `Fnv.ToInt64RoundTrip` | newcache.go:89-93 | converting back to uint64 recovers the digest, so distinct digests give distinct int64 keys |
| `Fnv.FoldAppend` | newcache.go:89-93 | FNV-1a is a left fold over the bytes: hashing `a + b` continues from the state after `a` |
| `Fnv.Sum64Snoc` | newcache.go:89-93 | hashing one more byte is one more round: xor the byte in, multiply by the prime modulo 2^64 |
| `Fnv.HashOfEmpty` | newcache.go:89-93 | the empty key hashes to the offset basis 14695981039346656037, which is -3750763034362895579 as int64 |
| `Fnv.HashOfA` | newcache.go:89-93 | the FNV-1a test vector: "a" hashes to 0xaf63dc4c8601ec8c |
| `Keys.BuildParameterString` | rache/ristretto_cache.go:101-108 | the builder loop yields the function name followed by "_" + text(p) for each parameter in order |
| `Keys.ParameterStringNoParams` | rache/ristretto_cache.go:103-107 | with no parameters the key equals the function name exactly |
| `Keys.SuffixesCons` | cache.go:146-148 | parameters are written in positional order: the first one's text comes right after the name |
| `Keys.ParameterStringLength` | cache.go:143-149 | the key's length is the name's plus one separator and the text of each parameter |
| `Keys.SeparatorIsAmbiguous` | cache.go:146-148 | a parameter whose text is `a_b` yields the same key as the two parameters `a` and `b` |
| `Keys.HexEncode` | cache.go:152 | hex encoding writes two characters per byte |
| `Keys.HexEncodeIsLowerHex` | cache.go:152 | every character written is in the lowercase alphabet 0-9a-f |
| `Keys.HexRoundTrip` | cache.go:152 | Base16 decoding (section 8 of RFC 4648) of the encoding gives back the bytes |
| `Keys.HexEncodeInjective` | cache.go:152 | distinct digests give distinct hex keys |
| `Keys.MemoKey` | cache.go:142-153 | the memo key is 64 lowercase hex characters |
| `Keys.MemoKeyCollision` | cache.go:132-153 | two calls share a memo key iff the SHA-256 digests of their parameter strings agree |
| `Keys.CreateParameterHash` | cache.go:142-153 | returns hex(sha256(name + "_"+text(p)...)), 64 lowercase hex characters |
| `Keys.CreateHash` | cache.go:132-140 | the key of a function is `CreateParameterHash` of its runtime name and the parameters |
| `Expire.ExpireIffBefore` | expire/time.go:16-18 | for all three variants, `Expire(t)` holds iff `t` is strictly before the stored deadline |
| `Expire.ExpireMonotone` | expire/time.go:16-18 | if `Expire(t)` holds, it holds at every earlier instant |
| `Expire.In` | expire/time.go:20-22 | `In(d)` is an untagged `duration` whose `Expire` holds exactly before now + d |
| `Expire.WithTagAt` | expire/time.go:43-52 | no tag: panic (None). One tag `x`: a `Tag` whose `GetValue` is `x`. Two or more: a `Tags` whose `GetValue` is the list in order. The deadline is now + the default lifetime, and the registered tags are the arguments |
| `Expire.Defaults.constructor` | expire/time.go:24 | the default lifetime starts at 6 hours |
| `Expire.Defaults.ChangeDefaultExpiration` | expire/time.go:26-28 | replaces the default lifetime |
| `Expire.Defaults.WithTag` | expire/time.go:43-52 | builds the tag policy with the default lifetime current at the call; policies already built are values and keep their deadline |
| `Memo.ReflectValue` | cache.go:109-130 | on a value reflected on its own kind (the hit path): a pointer's target is written, any other value is written as is; a nil value or nil pointer panics; what is written is never a pointer |
| `Memo.Decide` | cache.go:92-122 | the memoizer state machine. fn runs exactly on a miss. A non-function gives "fn must be a function". A hit writes reflectValue of the cached value. fn's error is returned verbatim with nothing stored or written. Only a successful call's value is stored, and it is written by its declared kind. A panic or a nil fn yields a nil error. Only an interface-declared miss can write a pointer or nil |
| `Memo.NilErrorWithoutResult` | cache.go:93-98 | a panic while calling fn is recovered: nil error, nothing stored, result unassigned |
| `Memo.AnyResultPointerDereferencedOnlyOnHit` | cache.go:108-120 | fn declared to return `any` returns a pointer: the miss writes the pointer, the next hit writes its target |
| `Memo.AnyResultNilPanicsOnlyOnHit` | cache.go:93-120 | fn declared to return `any` returns nil: the miss caches and writes nil, the next hit panics (nil error) and writes nothing |
| `Memo.ConcreteResultHitWritesSame` | cache.go:108-120 | fn with a concrete declared first result: the hit after a successful miss writes what the miss wrote |
| `LegacyCache.Cache.NewCache` | cache.go:26-28 | the new cache holds no items |
| `LegacyCache.Cache.Set` | cache.go:30-37 | stores `Item{now+validFor, value}` under the key, replacing any item and leaving other keys unchanged |
| `LegacyCache.Cache.Get` | cache.go:39-51 | returns the value only strictly before its expiration time, else (nil, false); an expired hit deletes "key" |
| `LegacyCache.Cache.Delete` | cache.go:53-57 | removes the key if present and nothing else |
| `LegacyCache.Cache.Kills` | cache.go:59-67 | the loop deletes exactly the items whose expiration time is before now |
| `LegacyCache.Cache.Check` | cache.go:92-122 | returns, writes and stores what `CheckSpec` (built on `Decide`) says |
| `LegacyCache.SetThenGet` | cache.go:30-51 | after Set, Get finds the value iff now < setTime + validFor |
| `LegacyCache.GetFoundIffBeforeDeadline` | cache.go:42-50 | Get is found iff the key is present and now is strictly before its expiration time; otherwise (nil, false) |
| `LegacyCache.ExpiredGetKeepsItem` | cache.go:45-46 | an expired lookup deletes "key" and leaves the expired item for any other key in place |
| `LegacyCache.KillsRemovesExactlyExpired` | cache.go:60-67 | an item survives Kills iff its expiration time is not before now, and survivors are unchanged |
| `LegacyCache.KillsIdempotent` | cache.go:60-67 | a second Kills at the same instant changes nothing |
| `LegacyCache.KillsKeepsBoundaryItem` | cache.go:42-67 | an item expiring exactly at now survives Kills, though Get misses it |
| `LegacyCache.CheckTwiceHits` | cache.go:105-121 | after a successful miss, the same call within the validity window hits: fn is not called and nothing changes. It writes reflectValue of fn's value, which equals what the miss wrote for fn whose first result is not interface-typed |
| `LegacyCache.CheckHitChangesNothing` | cache.go:107-109 | on a hit, fn is not called and the cached value is written |
| `LegacyCache.CheckErrorCachesNothing` | cache.go:111-116 | on a miss where fn fails, its error is returned and nothing is stored |
| `TaggedCache.AppendHash` | newcache.go:55-62 | addTag creates a one-element list for an unseen tag, else appends at the end without deduplication; the list grows by exactly one and other tags are unchanged |
| `TaggedCache.RegisterTagsEffect` | newcache.go:43-50 | after registering a tag list, a tag is indexed iff it was before or is listed, and its list gained the hash once per occurrence, at its end |
| `TaggedCache.Cachete.New` | newcache.go:24-26 | both maps start empty |
| `TaggedCache.NewIsEmpty` | newcache.go:24-26 | every Get on a new Cachete misses |
| `TaggedCache.Cachete.Get` | newcache.go:28-34 | returns the value and presence stored under the key's hash |
| `TaggedCache.Cachete.Set` | newcache.go:36-53 | stores `item{e, v}` under the key's hash and registers e's tags in order |
| `TaggedCache.Cachete.AddTag` | newcache.go:55-62 | the tag index becomes `AppendHash` of the old one; data is untouched |
| `TaggedCache.Cachete.Delete` | newcache.go:64-68 | removes the key's hash from data only |
| `TaggedCache.Cachete.DeleteHash` | newcache.go:70-74 | removes one hash from data only |
| `TaggedCache.Cachete.DeleteWithTag` | newcache.go:76-87 | the loop deletes every hash listed under the tag, then the tag; unknown tag: no change |
| `TaggedCache.Cachete.Kills` | newcache.go:130-137 | the loop deletes exactly the items whose `Expire(now)` holds; the index is untouched |
| `TaggedCache.Cachete.ExecuteAndCache` | newcache.go:100-128 | returns, writes and stores what `ExecuteSpec` (built on `Decide`) says |
| `TaggedCache.SetEffect` | newcache.go:36-53 | Set replaces the slot of the key's hash, keeps other slots, appends the hash once per occurrence to each of e's tags, and leaves the index alone for `duration` |
| `TaggedCache.CollidingKeysShareSlot` | newcache.go:28-42 | keys with equal hashes share a slot: a Set under one is found by Get under the other |
| `TaggedCache.GetIgnoresExpiry` | newcache.go:28-34 | an item whose deadline has passed is still returned as found |
| `TaggedCache.DeleteEffect` | newcache.go:64-68 | after Delete the key misses, other slots keep their presence, and the tag index is unchanged |
| `TaggedCache.DeleteWithTagEffect` | newcache.go:76-87 | known tag: its hashes leave data and the tag leaves the index, everything else is kept. Unknown tag: no change |
| `TaggedCache.DeleteWithTagIdempotent` | newcache.go:76-87 | a repeated DeleteWithTag is a no-op |
| `TaggedCache.TagInvalidation` | newcache.go:36-87 | an entry set with a policy carrying tag t misses after DeleteWithTag(t) |
| `TaggedCache.StaleTagDeletesRetaggedEntry` | newcache.go:36-87 | a key re-set with an untagged policy is still deleted by DeleteWithTag of its old tag |
| `TaggedCache.KillsDeletesLiveItems` | newcache.go:130-137 | Kills keeps exactly the items whose deadline is at or before now, i.e. it deletes the live ones |
| `TaggedCache.AfterKillsOnlyExpiredFound` | newcache.go:130-137 | after Kills, every value Get still finds has reached its deadline |
| `TaggedCache.ExecuteTwiceHits` | newcache.go:112-126 | after a successful miss the same call hits at any later time: fn is not called and nothing changes. It writes reflectValue of fn's value, which equals what the miss wrote for fn whose first result is not interface-typed |
| `TaggedCache.ExecuteRegistersTags` | newcache.go:123-124 | a successful miss registers the key under every tag of the policy, so DeleteWithTag on any of them invalidates it |
| `Rache.ToString` | rache/ristretto_cache.go:91-95 | the ristretto key is the unhashed parameter string of fn's name; with no parameters it is the name |
| `Rache.Rache.New` | rache/ristretto_cache.go:37-43 | the store starts empty |
| `Rache.Rache.Set` | rache/ristretto_cache.go:45-47 | offers the value with cost 0 and the ttl; reports and applies the store's admission decision |
| `Rache.Rache.Get` | rache/ristretto_cache.go:49-51 | returns what the store holds for the key, or (nil, false) |
| `Rache.Rache.Delete` | rache/ristretto_cache.go:53-55 | removes the key from the store |
| `Rache.Rache.FuncCache` | rache/ristretto_cache.go:62-89 | returns, writes and stores what `FuncCacheSpec` (built on `Decide`) says |
| `Rache.NotAFunctionTouchesNothing` | rache/ristretto_cache.go:69-72 | a non-function gets "fn must be a function" before the store is consulted or changed |
| `Rache.SuccessfulMiss` | rache/ristretto_cache.go:78-86 | a successful miss offers the value with cost 0 and the ttl, and writes it through result, reflected on fn's declared kind, whether or not it is admitted |
| `Rache.FailedMissStoresNothing` | rache/ristretto_cache.go:79-83 | fn's error on a miss is returned and Set is not called |
| `Rache.FuncCacheTwiceHits` | rache/ristretto_cache.go:75-86 | once a successful miss was admitted, the same call hits: fn is not called. It writes reflectValue of fn's value, which equals what the miss wrote for fn whose first result is not interface-typed |

## Left out

- `AutoCleaner` and `clean` (cache.go:69-85) are a ticker and channel loop. That is concurrency and timers. Also, its `break` only leaves the `select`, so the loop never ends. `Kills` itself is modelled.
- Locking (`sync.RWMutex`) is not modelled. The stores are single-threaded. Two lock faults are therefore not visible:
  - `Cache.Get` holds the read lock while `Delete` takes the write lock (cache.go:40-46). An expired hit deadlocks instead of returning.
  - `DeleteWithTag` returns with the lock held when the tag is unknown (newcache.go:78-81), so every later locking call blocks.
- `Cachete.Kills` ranges over `data` without holding the lock. Concurrency is not modelled.
- `reflect.Call`, `convertToValue` and `.Elem().Set` are not modelled. `fn` is a typed function value. Its declared result kind is reduced to one flag: interface or not. `result` is the `written` output. Type mismatches between `fn`'s result and `*result`, and a non-pointer `result`, cannot arise in the model. The panics they cause are only represented by the nil pointer and nil value cases.
- A pointer stored in the cache is modelled by the value it points to when it is stored. Later writes through that pointer, which Go callers would see on a hit, are not modelled.
- `runtime.FuncForPC` names, the `%v` text of parameters, and SHA-256 (FIPS 180-4) are not defined here. They are the `name` field of `fn`, the `text` parameter, and the `sha256` parameter (any function into 32-byte digests).
- Ristretto internals are not modelled: admission, eviction, TTL expiry, asynchronous buffering of `Set`, key hashing and non-string keys. The store is a map of what ristretto currently holds, and `admit` stands for its decision. The `SMALL`/`MEDIUM`/`BIG` configurations, and the error `ristretto.NewCache` can return in `New` (rache/ristretto_cache.go:19-43), are left out for the same reason.
- example/main.go is a demo that does I/O against an HTTP client. It is not part of this model.
- Logging (`log.Printf`, the message of `log.Panicln`) is dropped. The panic of `WithTag()` is kept as `None`.
- The unused `tag map[string]int64` field of `Cache` (cache.go:23) is never initialised and is not modelled.
- Other implementations of the `Expirator` interface, and a nil `Expirator` (on which `Kills` would panic), are not modelled. Only the three variants of expire/time.go are.
- Instants and durations are unbounded integers. `time.Time.Add` overflow and the monotonic-clock reading are not modelled.
