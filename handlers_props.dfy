/** Properties of the request-level logic of handlers.go, stated on the
    functions that specify the handlers. */
module HandlersProps {
  import opened Models
  import opened Engine
  import opened EngineProps
  import opened Handlers

  // ---------------------------------------------------------------- proxy

  /** A hit is served from the cache with X-Cache: HIT; the origin and the
      outcomes of Set's store calls play no part, and the state is the one
      Get leaves. */
  lemma ProxyHit(t: Tiers, r: Request, origin: Origin, now: int,
                 lookup: Status, setLookup: Status, insert: Status)
    requires GetSpec(t, CacheKey(r), now, lookup).reply.found
    ensures ProxySpec(t, r, origin, now, lookup, setLookup, insert)
         == Step(Served("HIT", GetSpec(t, CacheKey(r), now, lookup).reply.value),
                 GetSpec(t, CacheKey(r), now, lookup).after)
  {
  }

  /** On a miss the origin's body is served with X-Cache: MISS whatever Set
      answers, and the state is the one Set leaves after Get, with the body
      stored under the request's key for five minutes. */
  lemma ProxyMiss(t: Tiers, r: Request, body: string, now: int,
                  lookup: Status, setLookup: Status, insert: Status)
    requires !GetSpec(t, CacheKey(r), now, lookup).reply.found
    ensures ProxySpec(t, r, OriginBody(body), now, lookup, setLookup, insert)
         == Step(Served("MISS", body),
                 SetSpec(GetSpec(t, CacheKey(r), now, lookup).after, CacheKey(r), body,
                         DefaultTtl, now, setLookup, insert).after)
  {
  }

  /** A failed origin read stores nothing: the state is the one Get left. */
  lemma ProxyOriginFailure(t: Tiers, r: Request, now: int,
                           lookup: Status, setLookup: Status, insert: Status)
    requires !GetSpec(t, CacheKey(r), now, lookup).reply.found
    ensures ProxySpec(t, r, OriginFailed, now, lookup, setLookup, insert)
         == Step(ProxyError, GetSpec(t, CacheKey(r), now, lookup).after)
  {
  }

  /** A request whose key is live in neither tier is forwarded, and within
      the next five minutes the same request is a hit that serves the
      origin's body, whatever the origin would answer then and even when the
      table insert failed, since memory is not rolled back. */
  lemma MissThenHit(t: Tiers, r: Request, body: string, now: int, now2: int,
                    l1: Status, s1: Status, i1: Status,
                    origin2: Origin, l2: Status, s2: Status, i2: Status)
    requires !MemoryLive(t, CacheKey(r), now) && !StoreLive(t, CacheKey(r), now)
    requires now <= now2 <= now + DefaultTtl
    ensures ProxySpec(t, r, OriginBody(body), now, l1, s1, i1).reply == Served("MISS", body)
    ensures ProxySpec(ProxySpec(t, r, OriginBody(body), now, l1, s1, i1).after,
                      r, origin2, now2, l2, s2, i2).reply == Served("HIT", body)
  {
    var key := CacheKey(r);
    var g := GetSpec(t, key, now, l1);
    GetFound(t, key, now, l1);
    GetFound(g.after, key, now, s1);
    var p := ProxySpec(t, r, OriginBody(body), now, l1, s1, i1);
    assert p.after.items[key] == NewItem(key, body, DefaultTtl, now);
    GetMemoryHit(p.after, key, now2, l2);
  }

  // ---------------------------------------------------------------- add

  /** A body that does not decode, or one with an empty key, an empty value
      or a zero ttl, is refused with 400 and changes nothing. */
  lemma AddRejectsInvalid(t: Tiers, decoded: Option<AddBody>, now: int,
                          lookup: Status, insert: Status)
    requires decoded.None? || decoded.value.key == "" || decoded.value.value == "" ||
             decoded.value.ttl == 0
    ensures AddSpec(t, decoded, now, lookup, insert).reply.status == StatusBadRequest
    ensures AddSpec(t, decoded, now, lookup, insert).after == t
  {
  }

  /** A valid add answers 200 and ends with exactly the submitted entry in
      memory, expiring `ttl` from now, whatever Set did; the table holds
      what Set left in it. */
  lemma AddWritesMemory(t: Tiers, key: string, value: string, ttl: int, now: int,
                        lookup: Status, insert: Status)
    requires key != "" && value != "" && ttl != 0
    ensures AddSpec(t, Some(AddBody(key, value, ttl)), now, lookup, insert).reply.status == StatusOK
    ensures AddSpec(t, Some(AddBody(key, value, ttl)), now, lookup, insert).after.items[key]
         == Item(key, value, ttl, now + ttl)
    ensures AddSpec(t, Some(AddBody(key, value, ttl)), now, lookup, insert).after.store
         == SetSpec(t, key, value, ttl, now, lookup, insert).after.store
  {
  }

  /** The add endpoint bypasses insert-once: over a live memory entry it
      replaces the memory value while Set's refusal leaves the table alone,
      so when the two tiers agreed before, memory and table now disagree
      on the value. */
  lemma AddOverwritesLive(t: Tiers, key: string, value: string, ttl: int, now: int,
                          lookup: Status, insert: Status)
    requires key != "" && value != "" && ttl != 0
    requires MemoryLive(t, key, now)
    requires key in t.store && t.store[key] == t.items[key] && t.items[key].value != value
    ensures AddSpec(t, Some(AddBody(key, value, ttl)), now, lookup, insert).after.items[key].value
         == value
    ensures AddSpec(t, Some(AddBody(key, value, ttl)), now, lookup, insert).after.store == t.store
    ensures AddSpec(t, Some(AddBody(key, value, ttl)), now, lookup, insert).after.items[key].value
         != AddSpec(t, Some(AddBody(key, value, ttl)), now, lookup, insert).after.store[key].value
  {
    SetRejectsLive(t, key, value, ttl, now, lookup, insert);
  }

  // ---------------------------------------------------------------- get

  /** The read endpoint answers 500 exactly when the key is non-empty, not
      live in memory, and the table call fails or has no row; a missing key
      is therefore an error, not an empty answer. Otherwise a non-empty key
      gets 200 with the live value, or with "" when the only row is
      expired. */
  lemma AdminGetStatus(t: Tiers, key: string, now: int, lookup: Status)
    requires key != ""
    ensures AdminGetSpec(t, key, now, lookup).reply.status == StatusInternalServerError
        <==> !MemoryLive(t, key, now) && (lookup.Down? || key !in t.store)
    ensures AdminGetSpec(t, key, now, lookup).reply.status != StatusInternalServerError ==>
              AdminGetSpec(t, key, now, lookup).reply
              == HttpResponse(StatusOK,
                              if MemoryLive(t, key, now) then t.items[key].value
                              else if StoreLive(t, key, now) then t.store[key].value
                              else "")
  {
    GetFound(t, key, now, lookup);
  }

  // ---------------------------------------------------------------- delete

  /** The delete endpoint answers 200 exactly when the key is non-empty, Get
      reports it live and the table delete succeeds; any other non-empty key
      gets 500. */
  lemma AdminDeleteStatus(t: Tiers, key: string, now: int, lookup: Status, removal: Status)
    requires key != ""
    ensures AdminDeleteSpec(t, key, now, lookup, removal).reply.status == StatusOK
        <==> (MemoryLive(t, key, now) || (lookup.Up? && StoreLive(t, key, now))) && removal.Up?
    ensures AdminDeleteSpec(t, key, now, lookup, removal).reply.status != StatusOK ==>
              AdminDeleteSpec(t, key, now, lookup, removal).reply.status
              == StatusInternalServerError
  {
    GetFound(t, key, now, lookup);
  }

  /** Deleting a key a second time after a successful delete answers 500. */
  lemma AdminDeleteTwice(t: Tiers, key: string, now: int, now2: int,
                         l1: Status, r1: Status, l2: Status, r2: Status)
    requires AdminDeleteSpec(t, key, now, l1, r1).reply.status == StatusOK
    ensures AdminDeleteSpec(AdminDeleteSpec(t, key, now, l1, r1).after, key, now2, l2, r2).reply.status
         == StatusInternalServerError
  {
    ClearTwice(t, key, now, now2, l1, r1, l2, r2);
  }
}
