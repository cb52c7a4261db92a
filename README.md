# Caching reverse proxy: the two-tier TTL cache and its request logic

This project models the cache engine of a small caching reverse proxy written in Go (`cache.go`). It also models the request handlers built on that engine (`handlers.go`).

The engine keeps an in-memory map from key to entry (`items`) in front of a persistent table. An entry carries key, value, TTL and an absolute expiration. An entry is live at instant `now` iff `now <= expiration`, because the code tests `!time.Now().After(expiration)`. The operations are:

- `Get`: a memory hit, or else a table lookup that promotes a live row into memory.
- `Set`: insert-once; memory is written first, then the table.
- `Clear`: re-checks liveness, then deletes from memory and then from the table.
- `ClearExpired`: the sweep.
- The reset inside `clearCacheHandler`.

The handlers are:

- The proxy path: key = request URL, hit or miss, population on a miss.
- The admin endpoints that add, read and delete one entry.

Layout:

- `models.dfy` (module `Models`): the `Item` record (CacheItem), `Live`, `Status` (the outcome of one store call: `Up` or `Down`) and `Error`.
- `cache.dfy` (module `Engine`): the two tiers as a value (`Tiers`).
  - Every engine operation is specified by a function on values: `GetSpec`, `SetSpec`, `ClearSpec`, `SweepSpec`, `ResetSpec`.
  - The class `Cache` holds `items` and `store` as fields and updates them in place. Each method is proved to end in the state its function gives, and to return the answer it gives.
  - `ClearExpired` is a loop over a snapshot of the memory keys, with invariants.
- `cache_props.dfy` (module `EngineProps`): lemmas about the engine functions.
- `handlers.dfy` (module `Handlers`): abstract request, origin and response records. Each handler has a specifying function and a method that drives a `Cache`.
- `handlers_props.dfy` (module `HandlersProps`): lemmas about the handlers.

Modelling choices:

- **Time.** Time is an integer count of nanoseconds, passed in as `now`. `time.Duration` is the same kind of integer, so `5 * time.Minute` is `DefaultTtl`.
- **Store calls.** The persistent table is the map `store`. Each call into it takes a `Status` parameter:
  - `Down` stands for any failure of the SQL layer.
  - Whether a row exists is decided by `store` itself.
  - A lookup with no row fails with `NoRows`, as `Scan` returns `sql.ErrNoRows`.
  - An insert over an existing row fails with `DuplicateKey`. This assumes that `key` is the table's primary key; no source file defines the table.
- **Per-key sweep outcomes.** The sweep takes two functions from key to `Status`: the outcome of the lookup made for each key, and the outcome of the delete.

Deviations from the literal code, which cannot run to completion as written:

- **Nested locking.** `Set`, `Clear` and `ClearExpired` call `Get` or `Clear` while holding the non-reentrant mutex, which deadlocks. The nested call is modelled as a plain, lock-free call.
- **Nil pointer on a miss.** On a memory miss, `Get` scans into a nil pointer. This is modelled as a scan into a fresh record.
- **In-place overwrite.** When memory holds an expired entry, the scan overwrites that same record in place. The model does this too: the memory slot then holds the row, even an expired one.
- **Malformed SQL.** The `SELECT` has no `FROM` and the reset reads `DELETE * FROM`. These enter the model only as possible `Down` outcomes.

Where the code does not behave as a write-through cache with insert-once would be expected to, the model follows the code:

- **No rollback.** `Set` does not roll back its memory entry when the insert fails.
- **Missing key is an error.** A key found in neither tier makes `Get` report an error (`NoRows`), not a plain miss. So the admin read endpoint answers 500 for it.
- **No eviction on read.** `Get` does not evict an expired row.
- **Sweep retention.** The sweep removes an expired memory entry only when `Clear`'s own `Get` finds a live row in the table. Otherwise the entry stays in memory.
- **Add bypasses insert-once.** The admin add endpoint overwrites a live memory entry, which lets memory and table disagree.
- **Every body is cached.** Every origin body that could be read is cached, whatever its HTTP status.

## Model

| member | source | states |
|---|---|---|
| `Models.Item` | models.go:5-10 | no contract: the CacheItem record of key, value, TTL and absolute expiration instant |
| `Models.Live` | cache.go:48-48 | no contract: the definition is the liveness rule, live while `now` is not after the expiration; Get's row check (cache.go:62) and the sweep (cache.go:139) use the same rule |
| `Engine.NewItem` | cache.go:80-85 | the entry carries the given key, value and TTL, and is live at `now + ttl` and not one nanosecond later |
| `Engine.GetSpec` | cache.go:42-70 | Get never writes the table; a hit leaves a live memory entry holding the returned value; an error comes with `""`, not found, and no change; only the key's memory slot can change; entries stay filed under their own key |
| `Engine.Cache.Get` | cache.go:42-70 | the method returns GetSpec's triple and leaves GetSpec's state, updating `items` in place |
| `Engine.SetSpec` | cache.go:72-99 | AlreadyExists iff the nested Get found the key; otherwise memory ends holding the new entry with expiration `now + ttl`; success iff Get did not find the key, the insert call went through and the table had no row; on success the table gains exactly that entry, otherwise the table is unchanged; other keys untouched |
| `Engine.Cache.Set` | cache.go:72-99 | the method returns SetSpec's error and leaves SetSpec's state: nested Get, memory write, then table insert |
| `Engine.ClearSpec` | cache.go:101-118 | unless refused with NotExist, the key is gone from memory; success iff Get found the key live and the delete went through; the table loses the key exactly on success; other memory keys untouched |
| `Engine.Cache.Clear` | cache.go:101-118 | the method returns ClearSpec's error and leaves ClearSpec's state |
| `Engine.ResetSpec` | cache.go:120-124 | memory always ends empty; success iff the table delete went through, and then the table is empty, otherwise unchanged; entries stay filed under their own key |
| `Engine.Cache.Reset` | cache.go:120-124 | the method leaves ResetSpec's state and returns its error |
| `Engine.SweepAt` | cache.go:139-140 | one sweep iteration changes only key `k`'s slots, changes nothing unless `k` is in memory and expired, and keeps entries filed under their own key |
| `Engine.SweepSpec` | cache.go:134-143 | every key's memory slot and table slot end as that key's own sweep iteration (Clear on an expired memory key, nothing otherwise) leaves them |
| `Engine.SweepKeepsFiling` | cache.go:134-143 | after the sweep every memory entry and every row is still filed under its own key |
| `Engine.ClearIsLocal` | cache.go:101-118 | what Clear leaves under a key depends only on what the two tiers held under that key, so sweep iterations do not interfere |
| `Engine.Cache.ClearExpired` | cache.go:134-143 | the loop over a key snapshot ends in exactly SweepSpec's state, whatever order the keys are visited in |
| `Engine.Cache.constructor` | cache.go:23-29 | a new cache has empty memory over the given table |
| `EngineProps.GetMemoryHit` | cache.go:47-50 | a live memory entry (the expiration instant included) is a hit with its value, the state unchanged, whatever the table holds or its call does |
| `EngineProps.GetLookupError` | cache.go:53-59 | without a live memory entry, a failed call or missing row yields `("", false, error)` (StoreFailure or NoRows) and no change |
| `EngineProps.GetExpiredRow` | cache.go:56-64 | an expired row is reported as `("", false, no error)`; the table is unchanged and the row is not promoted, except that it overwrites an expired memory record in place |
| `EngineProps.GetPromotes` | cache.go:55-69 | after a memory miss, a live row is copied into `items[key]` unchanged (value, ttl, expiration) and returned as a hit; the promoted entry is filed under the key asked for |
| `EngineProps.GetFound` | cache.go:46-69 | found iff memory holds the key live, or the call goes through and the table holds a live row; the value found is that live entry's value |
| `EngineProps.GetHitRepeats` | cache.go:47-69 | after a hit, asking again at the same instant gives the same answer and state, without the table |
| `EngineProps.SetRejectsLive` | cache.go:76-78 | insert-once: a key live in memory or in a reachable table gives AlreadyExists; the table is unchanged and memory is as Get left it |
| `EngineProps.SetIgnoresLookupError` | cache.go:76-96 | a failed nested Get counts as absent: memory gets the new entry and the insert is attempted |
| `EngineProps.SetNoRollback` | cache.go:87-96 | when the insert fails, its error is returned (StoreFailure for a failed call, DuplicateKey over an existing row), the table is unchanged, and memory keeps the new entry |
| `EngineProps.InsertOnce` | cache.go:72-99 | once a Set of a key has got past the AlreadyExists check, even if its insert then failed, a second Set of that key before the first entry expires is refused, changes nothing, and Get still finds the first value |
| `EngineProps.SetThenExpire` | cache.go:42-99 | once a stored entry has expired, Get reports a miss without error (or the store error) |
| `EngineProps.ClearRejectsNotLive` | cache.go:105-107 | a key Get does not report live gives NotExist, with the state Get left |
| `EngineProps.ClearMemoryFirst` | cache.go:109-115 | for a live key, memory loses exactly that key; a failed table delete is returned with the row still in the table; otherwise the row is deleted too |
| `EngineProps.ClearTwice` | cache.go:101-118 | after a successful Clear, clearing the same key again fails with NotExist |
| `EngineProps.SetThenClear` | cache.go:72-118 | with both tiers reachable, Clear undoes a successful Set: the key is gone from memory and the table is as before the Set |
| `EngineProps.SweepKeepsLive` | cache.go:138-142 | the sweep leaves live memory entries and their rows untouched |
| `EngineProps.SweepSkipsTableOnly` | cache.go:138-142 | keys absent from memory are not visited; their rows stay |
| `EngineProps.SweepExpired` | cache.go:138-142 | an expired memory key is removed iff its lookup goes through and the table holds a live row for it; otherwise it stays, still expired, with its row; its row is deleted iff it was removed and the delete went through, or there was none |
| `EngineProps.ResetThenGet` | cache.go:120-124 | after a successful reset, every Get fails with NoRows or StoreFailure |
| `EngineProps.FailedResetResurrects` | cache.go:120-124 | after a reset whose table delete failed, memory is empty, yet the next Get promotes a live row back |
| `Handlers.CacheKey` | handlers.go:15 | no contract: the key is the request's URL string |
| `Handlers.ProxySpec` | handlers.go:14-46 | HIT only when Get found the key; a MISS serves exactly the origin's body; a proxy error leaves the state Get left, so nothing is stored; entries stay filed under their own key |
| `Handlers.HandleRequest` | handlers.go:14-46 | the method returns ProxySpec's response and leaves its state |
| `HandlersProps.ProxyHit` | handlers.go:15-22 | a hit on key `r.url` is served with `X-Cache: HIT` and the cached value, whatever the origin would answer |
| `HandlersProps.ProxyMiss` | handlers.go:33-42 | on a miss the origin body is served with `X-Cache: MISS` whatever Set answers; the state is Set's on the same key with the 5-minute TTL |
| `HandlersProps.ProxyOriginFailure` | handlers.go:34-37 | when the origin response cannot be read, Set is not called and the result is the proxy error |
| `HandlersProps.MissThenHit` | handlers.go:14-46 | a key live in neither tier is forwarded; within 5 minutes the same request is a HIT with that body, even if the table insert failed |
| `Handlers.AddSpec` | handlers.go:48-68 | the status is 200 or 400; 400 changes nothing; 200 ends with memory equal to Set's memory plus the submitted entry with expiration `now + ttl`; entries stay filed under their own key |
| `Handlers.HandleCacheAdd` | handlers.go:48-68 | the method returns AddSpec's response and leaves its state |
| `HandlersProps.AddRejectsInvalid` | handlers.go:49-58 | an undecodable body, an empty key, an empty value or a zero TTL gives 400 and no change |
| `HandlersProps.AddWritesMemory` | handlers.go:60-63 | valid input gives 200 and `items[key] == Item(key, value, ttl, now + ttl)` whatever Set returned; the table is as Set left it |
| `HandlersProps.AddOverwritesLive` | handlers.go:60-63 | over a live, consistent entry, memory takes the new value while the table keeps the old one (insert-once bypassed, tiers diverge) |
| `Handlers.AdminGetSpec` | handlers.go:70-90 | an empty key gives 400 and no engine call; otherwise the state is Get's; entries stay filed under their own key |
| `Handlers.HandleCacheGet` | handlers.go:70-90 | the method returns AdminGetSpec's response and leaves its state |
| `HandlersProps.AdminGetStatus` | handlers.go:73-89 | for a non-empty key: 500 iff the key is not live in memory and the table call fails or has no row; otherwise 200 with the live value, or `""` when the only row has expired |
| `Handlers.AdminDeleteSpec` | handlers.go:92-109 | an empty key gives 400 and no change; otherwise the state is Clear's; entries stay filed under their own key |
| `Handlers.HandleCacheDelete` | handlers.go:92-109 | the method returns AdminDeleteSpec's response and leaves its state |
| `HandlersProps.AdminDeleteStatus` | handlers.go:95-108 | for a non-empty key: 200 iff Get finds the key live and the table delete goes through, 500 otherwise |
| `HandlersProps.AdminDeleteTwice` | handlers.go:92-109 | after a delete that answered 200, deleting the same key again answers 500 |

## Left out

- The mutex and its lock/unlock pairs (cache.go:19, 43-44, 73-74, 102-103, 135-136): concurrency. Each operation is an atomic sequential step.
- The background sweeper (`go c.startExpirationHandler(...)` in `newCache`, the ticker loop, cache.go:24, 31-40): a goroutine and a timer. `ClearExpired` is called directly. The constructor models only the record `newCache` returns.
- The clock. Each operation takes one instant `now`. Where the source reads the clock more than once during a call (the memory check and the row check inside `Get`, cache.go:48 and 62; each sweep iteration; the nested `Get` inside `Set` and `Clear`; the add handler's `Set`; `handleRequest`'s `Get` and its later `Set` after the origin round trip, handlers.go:18 and 39), the model uses that one instant for all of those reads. So `MissThenHit` measures the five-minute window from the instant of the first `Get`, not from the later `Set`.
- SQL text and `database/sql` (cache.go:53-56, 91-93, 111-112, 123-124): a foreign library. The store is a map with a `Status` per call. A failing scan writes no field; partial scans are not modelled.
- 64-bit overflow of `time.Time.Add` and of `time.Duration`: instants and TTLs are unbounded integers.
- The HTTP response of `clearCacheHandler` (cache.go:125-131, including the second `WriteHeader`): response writing. Only its state change is modelled (`Cache.Reset`).
- `httputil.ReverseProxy`, the `Director` URL rewriting, `io.ReadAll` and the origin's status code and headers (handlers.go:25-45): library I/O. The origin is a body or a failure. The proxy's own error reply after a failed read is only `ProxyError`.
- JSON decoding of the add request (handlers.go:50-53), JSON encoding of the read reply and its failure branch (handlers.go:84-89), `mux.Vars`, and the `Content-Type` header: library I/O. The decoded body is an `Option`, and the read reply carries the raw value.
- main.go (flags, `openDB`, server start) and routes.go (route wiring, `parseToUrl`): process bootstrap and I/O.
