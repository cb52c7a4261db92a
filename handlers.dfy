/** The request-level logic of handlers.go on top of the cache engine: the
    cache-checked proxy path and the three administrative endpoints that
    add, read and delete one entry. HTTP requests, responses and the origin
    server are abstract records. Each handler is specified by a function on
    the engine's state (`Tiers`) and implemented by a method that drives a
    `Cache` object. */
module Handlers {
  import opened Models
  import opened Engine

  /** 5 * time.Minute, in nanoseconds: the lifetime of a populated entry. */
  const DefaultTtl: int := 5 * 60 * 1000000000

  const StatusOK: int := 200
  const StatusBadRequest: int := 400
  const StatusInternalServerError: int := 500

  /** An inbound proxied request; `url` stands for r.URL.String(). */
  datatype Request = Request(url: string)

  /** The cache key of a request: the full URL string. */
  function CacheKey(r: Request): string
  {
    r.url
  }

  /** What forwarding to the origin yields: the response body read in full,
      or a failure (of the round trip or of reading the body). */
  datatype Origin = OriginBody(body: string) | OriginFailed

  /** The proxy's answer: a body with its X-Cache header, or the error the
      proxy reports when the response could not be read. */
  datatype ProxyResponse = Served(xCache: string, body: string) | ProxyError

  /** handleRequest (handlers.go:14-46). A hit is served from the cache with
      X-Cache: HIT and the origin is not involved. On a miss the origin's
      body is stored under the same key for five minutes and served with
      X-Cache: MISS; Set's error is ignored. A failed origin read stores
      nothing and writes no body. */
  function ProxySpec(t: Tiers, r: Request, origin: Origin, now: int,
                     lookup: Status, setLookup: Status, insert: Status): (s: Step<ProxyResponse>)
    ensures s.reply.Served? && s.reply.xCache == "HIT" ==>
              GetSpec(t, CacheKey(r), now, lookup).reply.found
    ensures s.reply.Served? && s.reply.xCache == "MISS" ==>
              origin == OriginBody(s.reply.body)
    ensures s.reply.ProxyError? ==> s.after == GetSpec(t, CacheKey(r), now, lookup).after
    ensures WellFiled(t) ==> WellFiled(s.after)
  {
    var key := CacheKey(r);
    var g := GetSpec(t, key, now, lookup);
    if g.reply.found then
      Step(Served("HIT", g.reply.value), g.after)
    else
      match origin
      case OriginFailed => Step(ProxyError, g.after)
      case OriginBody(body) =>
        var stored := SetSpec(g.after, key, body, DefaultTtl, now, setLookup, insert);
        Step(Served("MISS", body), stored.after)
  }

  method HandleRequest(c: Cache, r: Request, origin: Origin, now: int,
                       lookup: Status, setLookup: Status, insert: Status)
    returns (resp: ProxyResponse)
    modifies c
    ensures Step(resp, c.State()) == ProxySpec(old(c.State()), r, origin, now, lookup, setLookup, insert)
  {
    var key := CacheKey(r);
    var cached, hit, _ := c.Get(key, now, lookup);
    if hit {
      return Served("HIT", cached);
    }
    match origin
    case OriginFailed =>
      return ProxyError;
    case OriginBody(body) =>
      var _ := c.Set(key, body, DefaultTtl, now, setLookup, insert);
      return Served("MISS", body);
  }

  /** An HTTP answer of the administrative endpoints. */
  datatype HttpResponse = HttpResponse(status: int, body: string)

  /** The fields of a decoded add request. */
  datatype AddBody = AddBody(key: string, value: string, ttl: int)

  /** handleCacheAdd (handlers.go:48-68); `decoded` is None when the JSON body
      does not decode. Invalid input is refused with 400 and nothing happens.
      Otherwise Set is called and its error ignored, and then the entry is
      written straight into memory, replacing whatever Set left there. */
  function AddSpec(t: Tiers, decoded: Option<AddBody>, now: int,
                   lookup: Status, insert: Status): (s: Step<HttpResponse>)
    ensures s.reply.status == StatusOK || s.reply.status == StatusBadRequest
    ensures s.reply.status == StatusBadRequest ==> s.after == t
    ensures s.reply.status == StatusOK ==>
              decoded.Some? &&
              s.after.items == SetSpec(t, decoded.value.key, decoded.value.value, decoded.value.ttl,
                                       now, lookup, insert).after.items[decoded.value.key :=
                                 NewItem(decoded.value.key, decoded.value.value, decoded.value.ttl, now)]
    ensures WellFiled(t) ==> WellFiled(s.after)
  {
    match decoded
    case None => Step(HttpResponse(StatusBadRequest, "Invalid input\n"), t)
    case Some(AddBody(key, value, ttl)) =>
      if key == "" || value == "" || ttl == 0 then
        Step(HttpResponse(StatusBadRequest, "Key and value and tll are required\n"), t)
      else
        var stored := SetSpec(t, key, value, ttl, now, lookup, insert);
        Step(HttpResponse(StatusOK, "{\"message\": \"Cache created successfully\"}"),
             stored.after.(items := stored.after.items[key := NewItem(key, value, ttl, now)]))
  }

  method HandleCacheAdd(c: Cache, decoded: Option<AddBody>, now: int,
                        lookup: Status, insert: Status) returns (resp: HttpResponse)
    modifies c
    ensures Step(resp, c.State()) == AddSpec(old(c.State()), decoded, now, lookup, insert)
  {
    if decoded.None? {
      return HttpResponse(StatusBadRequest, "Invalid input\n");
    }
    var item := decoded.value;
    if item.key == "" || item.value == "" || item.ttl == 0 {
      return HttpResponse(StatusBadRequest, "Key and value and tll are required\n");
    }
    var expiring := NewItem(item.key, item.value, item.ttl, now);
    var _ := c.Set(item.key, item.value, item.ttl, now, lookup, insert);
    c.items := c.items[item.key := expiring];
    return HttpResponse(StatusOK, "{\"message\": \"Cache created successfully\"}");
  }

  /** handleCacheGet (handlers.go:70-90): 400 for an empty key (the engine is
      not asked), 500 when Get reports an error, 200 with Get's value
      otherwise, which is "" on a miss since `found` is not looked at. The
      value is carried as it is; its JSON encoding is not modelled. */
  function AdminGetSpec(t: Tiers, key: string, now: int, lookup: Status): (s: Step<HttpResponse>)
    ensures key == "" ==> s == Step(HttpResponse(StatusBadRequest, "Invalid key\n"), t)
    ensures key != "" ==> s.after == GetSpec(t, key, now, lookup).after
    ensures WellFiled(t) ==> WellFiled(s.after)
  {
    if key == "" then
      Step(HttpResponse(StatusBadRequest, "Invalid key\n"), t)
    else
      var g := GetSpec(t, key, now, lookup);
      if g.reply.err.Some? then
        Step(HttpResponse(StatusInternalServerError, "Failed to fetch the cache\n"), g.after)
      else
        Step(HttpResponse(StatusOK, g.reply.value), g.after)
  }

  method HandleCacheGet(c: Cache, key: string, now: int, lookup: Status) returns (resp: HttpResponse)
    modifies c
    ensures Step(resp, c.State()) == AdminGetSpec(old(c.State()), key, now, lookup)
  {
    if key == "" {
      return HttpResponse(StatusBadRequest, "Invalid key\n");
    }
    var value, _, err := c.Get(key, now, lookup);
    if err.Some? {
      return HttpResponse(StatusInternalServerError, "Failed to fetch the cache\n");
    }
    return HttpResponse(StatusOK, value);
  }

  /** handleCacheDelete (handlers.go:92-109): 400 for an empty key, 500 when
      Clear reports any error, 200 otherwise. */
  function AdminDeleteSpec(t: Tiers, key: string, now: int,
                           lookup: Status, removal: Status): (s: Step<HttpResponse>)
    ensures key == "" ==> s == Step(HttpResponse(StatusBadRequest, "Invalid key\n"), t)
    ensures key != "" ==> s.after == ClearSpec(t, key, now, lookup, removal).after
    ensures WellFiled(t) ==> WellFiled(s.after)
  {
    if key == "" then
      Step(HttpResponse(StatusBadRequest, "Invalid key\n"), t)
    else
      var cleared := ClearSpec(t, key, now, lookup, removal);
      if cleared.reply.Some? then
        Step(HttpResponse(StatusInternalServerError, "Failed to delete the cache\n"), cleared.after)
      else
        Step(HttpResponse(StatusOK, "{\"message\": \"Cache delete successfully\"}"), cleared.after)
  }

  method HandleCacheDelete(c: Cache, key: string, now: int, lookup: Status, removal: Status)
    returns (resp: HttpResponse)
    modifies c
    ensures Step(resp, c.State()) == AdminDeleteSpec(old(c.State()), key, now, lookup, removal)
  {
    if key == "" {
      return HttpResponse(StatusBadRequest, "Invalid key\n");
    }
    var err := c.Clear(key, now, lookup, removal);
    if err.Some? {
      return HttpResponse(StatusInternalServerError, "Failed to delete the cache\n");
    }
    return HttpResponse(StatusOK, "{\"message\": \"Cache delete successfully\"}");
  }
}
