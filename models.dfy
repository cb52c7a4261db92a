/** The record the cache keeps (CacheItem in models.go) and the vocabulary
    shared by the cache engine and the HTTP handlers: liveness of an entry,
    the outcome of one call into the persistent store, and the errors the
    engine reports. */
module Models {

  datatype Option<+T> = None | Some(value: T)

  /** One cache entry. Go's time.Duration and time.Time become integers
      counting nanoseconds, so `expiration` is an absolute instant and `ttl`
      a span of time. */
  datatype Item = Item(key: string, value: string, ttl: int, expiration: int)

  /** An entry is live at `now` unless `now` is strictly after its expiration:
      the source tests `!time.Now().After(expiration)`, so the expiration
      instant itself is still live. */
  predicate Live(item: Item, now: int)
  {
    now <= item.expiration
  }

  /** Whether one call into the persistent store got through. `Down` stands
      for every failure of the SQL layer itself (connection, malformed
      statement, scan error); whether a row exists is decided by the
      store's contents, not by this outcome. */
  datatype Status = Up | Down

  datatype Error =
    | NoRows         // the point lookup matched no row (sql.ErrNoRows)
    | StoreFailure   // the store call itself failed
    | DuplicateKey   // the insert collided with a row under the same primary key
    | AlreadyExists  // Set: "The cache has already existed!"
    | NotExist       // Clear: "Cache doesn't exist!"

  /** What map `m` holds under `k`, as a total function. */
  function Slot(m: map<string, Item>, k: string): Option<Item>
  {
    if k in m then Some(m[k]) else None
  }

  /** Every entry is filed under its own key: the memory map is indexed by
      CacheItem.Key and the persistent table has `key` as its primary key. */
  predicate Filed(m: map<string, Item>)
  {
    forall k :: k in m ==> m[k].key == k
  }

  /** Two maps that agree on every slot are the same map. */
  lemma SlotsDetermine(a: map<string, Item>, b: map<string, Item>)
    requires forall k :: Slot(a, k) == Slot(b, k)
    ensures a == b
  {
    forall k | k in a ensures k in b && a[k] == b[k] {
      assert Slot(a, k) == Slot(b, k);
    }
    forall k | k in b ensures k in a {
      assert Slot(a, k) == Slot(b, k);
    }
  }
}
