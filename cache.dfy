/** The two-tier TTL cache of cache.go: an in-memory map from key to entry in
    front of a persistent table. The operations are stated first on values
    (`Tiers`: the memory map and the table's rows) by the functions GetSpec,
    SetSpec, ClearSpec, SweepSpec and ResetSpec; the class `Cache` then
    carries the two maps as fields and updates them in place, each method
    proved to end in the state its function describes.

    Deviations from the literal code, which cannot run to completion:
    - Set, Clear and ClearExpired call Get or Clear while holding the
      non-reentrant mutex, which deadlocks in Go. The mutex is not modelled;
      the nested call is a plain, lock-free call.
    - On a memory miss Get scans the row through a nil pointer, which panics
      in Go. The model scans into a fresh record.
    - The SELECT statement has no FROM clause and the reset statement reads
      `DELETE * FROM`; SQL text is not modelled, only the outcome (Status)
      of each store call. */
module Engine {
  import opened Models

  /** The memory tier and the persistent tier, as values. */
  datatype Tiers = Tiers(items: map<string, Item>, store: map<string, Item>)

  predicate WellFiled(t: Tiers)
  {
    Filed(t.items) && Filed(t.store)
  }

  /** Get's triple (value, found, error). */
  datatype Reply = Reply(value: string, found: bool, err: Option<Error>)

  /** What an operation answers, with the state it leaves behind. */
  datatype Step<R> = Step(reply: R, after: Tiers)

  /** Get (cache.go:42-70). A live memory entry answers at once. Otherwise
      the store is queried: a failed call or a missing row is an error, an
      expired row is a miss, a live row is promoted into memory and is a hit.
      When memory held an expired entry, the scan writes the row over that
      same record, so the memory slot then holds the row even when the row
      is itself expired. The store is never written. */
  function GetSpec(t: Tiers, key: string, now: int, lookup: Status): (r: Step<Reply>)
    ensures r.after.store == t.store
    ensures r.reply.found ==>
              r.reply.err == None && key in r.after.items &&
              Live(r.after.items[key], now) && r.after.items[key].value == r.reply.value
    ensures r.reply.err.Some? ==> r.after == t && !r.reply.found && r.reply.value == ""
    ensures forall k :: k != key ==> Slot(r.after.items, k) == Slot(t.items, k)
    ensures WellFiled(t) ==> WellFiled(r.after)
  {
    if key in t.items && Live(t.items[key], now) then
      Step(Reply(t.items[key].value, true, None), t)
    else if lookup.Down? then
      Step(Reply("", false, Some(StoreFailure)), t)
    else if key !in t.store then
      Step(Reply("", false, Some(NoRows)), t)
    else
      var row := t.store[key];
      var items := if key in t.items || Live(row, now) then t.items[key := row] else t.items;
      if Live(row, now) then Step(Reply(row.value, true, None), t.(items := items))
      else Step(Reply("", false, None), t.(items := items))
  }

  /** The record Set creates (cache.go:80-85): filed under its key, and live
      through the instant `now + ttl` and no later. */
  function NewItem(key: string, value: string, ttl: int, now: int): (r: Item)
    ensures r.key == key && r.value == value && r.ttl == ttl
    ensures Live(r, now + ttl) && !Live(r, now + ttl + 1)
  {
    Item(key, value, ttl, now + ttl)
  }

  /** Set (cache.go:72-99). Insert-once: when the nested Get reports the key
      live, Set fails and leaves the state Get left; an error from that Get
      is discarded. Otherwise the new entry goes into memory first and is
      then inserted into the table; a failed insert is reported but the
      memory entry is not rolled back. */
  function SetSpec(t: Tiers, key: string, value: string, ttl: int, now: int,
                   lookup: Status, insert: Status): (r: Step<Option<Error>>)
    ensures r.reply == Some(AlreadyExists) <==> GetSpec(t, key, now, lookup).reply.found
    ensures r.reply != Some(AlreadyExists) ==>
              Slot(r.after.items, key) == Some(NewItem(key, value, ttl, now))
    ensures r.reply == None <==>
              !GetSpec(t, key, now, lookup).reply.found && insert.Up? && key !in t.store
    ensures r.reply == None ==> r.after.store == t.store[key := NewItem(key, value, ttl, now)]
    ensures r.reply != None ==> r.after.store == t.store
    ensures forall k :: k != key ==> Slot(r.after.items, k) == Slot(t.items, k)
    ensures WellFiled(t) ==> WellFiled(r.after)
  {
    var g := GetSpec(t, key, now, lookup);
    if g.reply.found then
      Step(Some(AlreadyExists), g.after)
    else
      var item := NewItem(key, value, ttl, now);
      var t1 := g.after.(items := g.after.items[key := item]);
      if insert.Down? then Step(Some(StoreFailure), t1)
      else if key in t1.store then Step(Some(DuplicateKey), t1)
      else Step(None, t1.(store := t1.store[key := item]))
  }

  /** Clear (cache.go:101-118). Fails, leaving the state the nested Get left,
      unless Get reports the key live; otherwise the key leaves memory
      first and then the table, and a failed removal is reported with the
      memory entry already gone. */
  function ClearSpec(t: Tiers, key: string, now: int,
                     lookup: Status, removal: Status): (r: Step<Option<Error>>)
    ensures r.reply != Some(NotExist) ==> key !in r.after.items
    ensures r.reply == None <==> GetSpec(t, key, now, lookup).reply.found && removal.Up?
    ensures r.after.store == if r.reply == None then t.store - {key} else t.store
    ensures forall k :: k != key ==> Slot(r.after.items, k) == Slot(t.items, k)
    ensures WellFiled(t) ==> WellFiled(r.after)
  {
    var g := GetSpec(t, key, now, lookup);
    if !g.reply.found then
      Step(Some(NotExist), g.after)
    else
      var t1 := g.after.(items := g.after.items - {key});
      if removal.Down? then Step(Some(StoreFailure), t1)
      else Step(None, t1.(store := t1.store - {key}))
  }

  /** The reset half of clearCacheHandler (cache.go:120-124): memory is
      replaced by an empty map before the table is emptied, so memory ends
      empty even when the table removal fails. */
  function ResetSpec(t: Tiers, removal: Status): (r: Step<Option<Error>>)
    ensures r.after.items == map[]
    ensures r.reply == None <==> removal.Up?
    ensures r.after.store == if r.reply == None then map[] else t.store
    ensures WellFiled(t) ==> WellFiled(r.after)
  {
    if removal.Down? then Step(Some(StoreFailure), Tiers(map[], t.store))
    else Step(None, Tiers(map[], map[]))
  }

  /** What one iteration of the sweep leaves for key `k`: Clear on `k` when
      `k` is in memory and expired, nothing otherwise. */
  function SweepAt(t: Tiers, k: string, now: int,
                   lookup: string -> Status, removal: string -> Status): (r: Tiers)
    ensures forall j :: j != k ==> Slot(r.items, j) == Slot(t.items, j)
    ensures forall j :: j != k ==> Slot(r.store, j) == Slot(t.store, j)
    ensures !(k in t.items && !Live(t.items[k], now)) ==> r == t
    ensures WellFiled(t) ==> WellFiled(r)
  {
    if k in t.items && !Live(t.items[k], now) then
      ClearSpec(t, k, now, lookup(k), removal(k)).after
    else t
  }

  /** ClearExpired (cache.go:134-143), key by key: every key ends as its own
      iteration of the sweep leaves it. Each iteration touches only its own
      key, so the order of the map's range does not matter. `lookup(k)` and
      `removal(k)` are the outcomes of the store calls made for key `k`. */
  function SweepSpec(t: Tiers, now: int,
                     lookup: string -> Status, removal: string -> Status): (r: Tiers)
    ensures forall k :: Slot(r.items, k) == Slot(SweepAt(t, k, now, lookup, removal).items, k)
    ensures forall k :: Slot(r.store, k) == Slot(SweepAt(t, k, now, lookup, removal).store, k)
  {
    Tiers(map k | k in t.items && k in SweepAt(t, k, now, lookup, removal).items
            :: SweepAt(t, k, now, lookup, removal).items[k],
          map k | k in t.store && k in SweepAt(t, k, now, lookup, removal).store
            :: SweepAt(t, k, now, lookup, removal).store[k])
  }

  /** The sweep keeps every entry filed under its own key. */
  lemma SweepKeepsFiling(t: Tiers, now: int, lookup: string -> Status, removal: string -> Status)
    requires WellFiled(t)
    ensures WellFiled(SweepSpec(t, now, lookup, removal))
  {
  }

  /** ClearSpec on key `k` depends only on what the two tiers hold under `k`. */
  lemma ClearIsLocal(t: Tiers, u: Tiers, k: string, now: int, lookup: Status, removal: Status)
    requires Slot(t.items, k) == Slot(u.items, k) && Slot(t.store, k) == Slot(u.store, k)
    ensures Slot(ClearSpec(t, k, now, lookup, removal).after.items, k)
         == Slot(ClearSpec(u, k, now, lookup, removal).after.items, k)
    ensures Slot(ClearSpec(t, k, now, lookup, removal).after.store, k)
         == Slot(ClearSpec(u, k, now, lookup, removal).after.store, k)
  {
    assert (k in t.items) == (k in u.items) && (k in t.store) == (k in u.store);
  }

  /** The cache object: the memory map and, standing for the table reached
      through DB, the rows of the persistent store. */
  class Cache {
    var items: map<string, Item>
    var store: map<string, Item>

    function State(): Tiers
      reads this
    {
      Tiers(items, store)
    }

    /** The record newCache builds: empty memory over the given table. The
        background sweeper it starts is not modelled; ClearExpired is called
        directly instead. */
    constructor (db: map<string, Item>)
      ensures State() == Tiers(map[], db)
    {
      items := map[];
      store := db;
    }

    method Get(key: string, now: int, lookup: Status) returns (value: string, found: bool, err: Option<Error>)
      modifies this
      ensures Step(Reply(value, found, err), State()) == GetSpec(old(State()), key, now, lookup)
    {
      if key in items && Live(items[key], now) {
        return items[key].value, true, None;
      }
      if lookup.Down? {
        return "", false, Some(StoreFailure);
      }
      if key !in store {
        return "", false, Some(NoRows);
      }
      var row := store[key];
      if key in items {
        // The scan writes through the pointer held in memory.
        items := items[key := row];
      }
      if !Live(row, now) {
        return "", false, None;
      }
      items := items[key := row];
      return row.value, true, None;
    }

    method Set(key: string, value: string, ttl: int, now: int,
               lookup: Status, insert: Status) returns (err: Option<Error>)
      modifies this
      ensures Step(err, State()) == SetSpec(old(State()), key, value, ttl, now, lookup, insert)
    {
      var _, live, _ := Get(key, now, lookup);
      if live {
        return Some(AlreadyExists);
      }
      var item := NewItem(key, value, ttl, now);
      items := items[key := item];
      if insert.Down? {
        return Some(StoreFailure);
      }
      if key in store {
        return Some(DuplicateKey);
      }
      store := store[key := item];
      return None;
    }

    method Clear(key: string, now: int, lookup: Status, removal: Status) returns (err: Option<Error>)
      modifies this
      ensures Step(err, State()) == ClearSpec(old(State()), key, now, lookup, removal)
    {
      var _, live, _ := Get(key, now, lookup);
      if !live {
        return Some(NotExist);
      }
      items := items - {key};
      if removal.Down? {
        return Some(StoreFailure);
      }
      store := store - {key};
      return None;
    }

    /** The state change of clearCacheHandler; its HTTP answer is not
        modelled. */
    method Reset(removal: Status) returns (err: Option<Error>)
      modifies this
      ensures Step(err, State()) == ResetSpec(old(State()), removal)
    {
      items := map[];
      if removal.Down? {
        return Some(StoreFailure);
      }
      store := map[];
      return None;
    }

    /** The sweep, over a snapshot of the memory keys; Clear's error is
        ignored, as in the source. */
    method ClearExpired(now: int, lookup: string -> Status, removal: string -> Status)
      modifies this
      ensures State() == SweepSpec(old(State()), now, lookup, removal)
    {
      ghost var t0 := State();
      var pending := items.Keys;
      while pending != {}
        invariant pending <= t0.items.Keys
        invariant forall k :: k in pending ==>
                    Slot(items, k) == Slot(t0.items, k) && Slot(store, k) == Slot(t0.store, k)
        invariant forall k :: k !in pending ==>
                    Slot(items, k) == Slot(SweepAt(t0, k, now, lookup, removal).items, k) &&
                    Slot(store, k) == Slot(SweepAt(t0, k, now, lookup, removal).store, k)
        decreases pending
      {
        var k :| k in pending;
        if !Live(items[k], now) {
          ghost var before := State();
          var _ := Clear(k, now, lookup(k), removal(k));
          ClearIsLocal(before, t0, k, now, lookup(k), removal(k));
        }
        pending := pending - {k};
      }
      ghost var r := SweepSpec(t0, now, lookup, removal);
      SlotsDetermine(items, r.items);
      SlotsDetermine(store, r.store);
    }
  }
}
