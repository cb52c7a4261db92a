/** Properties of the cache engine of cache.go, stated on the functions that
    specify the methods of Engine.Cache. */
module EngineProps {
  import opened Models
  import opened Engine

  /** Memory holds a live entry for `key`. */
  predicate MemoryLive(t: Tiers, key: string, now: int)
  {
    key in t.items && Live(t.items[key], now)
  }

  /** The table holds a live row for `key`. */
  predicate StoreLive(t: Tiers, key: string, now: int)
  {
    key in t.store && Live(t.store[key], now)
  }

  // ---------------------------------------------------------------- Get

  /** A live memory entry is answered from memory: the answer and the state
      are the same whatever the table holds and whatever its call would do,
      and the expiration instant itself is still a hit. */
  lemma GetMemoryHit(t: Tiers, key: string, now: int, lookup: Status)
    requires MemoryLive(t, key, now)
    ensures GetSpec(t, key, now, lookup) == Step(Reply(t.items[key].value, true, None), t)
  {
  }

  /** Without a live memory entry, a failed store call or a missing row is
      reported as an error with an empty value, and nothing changes. */
  lemma GetLookupError(t: Tiers, key: string, now: int, lookup: Status)
    requires !MemoryLive(t, key, now)
    requires lookup.Down? || key !in t.store
    ensures GetSpec(t, key, now, lookup)
         == Step(Reply("", false, Some(if lookup.Down? then StoreFailure else NoRows)), t)
  {
  }

  /** An expired row is a plain miss: no error, the table keeps the row, and
      memory is not given it, except that an expired memory record under the
      same key is overwritten in place by the scan. */
  lemma GetExpiredRow(t: Tiers, key: string, now: int, lookup: Status)
    requires !MemoryLive(t, key, now) && lookup.Up?
    requires key in t.store && !Live(t.store[key], now)
    ensures GetSpec(t, key, now, lookup)
         == Step(Reply("", false, None),
                 t.(items := if key in t.items then t.items[key := t.store[key]] else t.items))
  {
  }

  /** A live row behind a memory miss is promoted into memory unchanged
      (same value, ttl and expiration) and answered as a hit. */
  lemma GetPromotes(t: Tiers, key: string, now: int, lookup: Status)
    requires !MemoryLive(t, key, now) && lookup.Up? && StoreLive(t, key, now)
    ensures GetSpec(t, key, now, lookup)
         == Step(Reply(t.store[key].value, true, None), t.(items := t.items[key := t.store[key]]))
    ensures WellFiled(t) ==> GetSpec(t, key, now, lookup).after.items[key].key == key
  {
  }

  /** Get finds a key exactly when memory or a reachable table holds it live;
      what it finds is the value of that live entry, so an expired entry is
      never a hit. */
  lemma GetFound(t: Tiers, key: string, now: int, lookup: Status)
    ensures GetSpec(t, key, now, lookup).reply.found
        <==> MemoryLive(t, key, now) || (lookup.Up? && StoreLive(t, key, now))
    ensures GetSpec(t, key, now, lookup).reply.found ==>
              GetSpec(t, key, now, lookup).reply.value
              == if MemoryLive(t, key, now) then t.items[key].value else t.store[key].value
  {
  }

  /** A hit leaves a live memory entry behind, so asking again at the same
      instant is answered from memory with the same value and changes
      nothing, whatever the table would do. */
  lemma GetHitRepeats(t: Tiers, key: string, now: int, lookup: Status, lookup2: Status)
    requires GetSpec(t, key, now, lookup).reply.found
    ensures GetSpec(GetSpec(t, key, now, lookup).after, key, now, lookup2)
         == GetSpec(t, key, now, lookup)
  {
    var g := GetSpec(t, key, now, lookup);
    GetMemoryHit(g.after, key, now, lookup2);
  }

  // ---------------------------------------------------------------- Set

  /** Insert-once: a key Get reports live is refused; the table is untouched
      and memory is as the nested Get left it (unchanged when the hit came
      from memory). */
  lemma SetRejectsLive(t: Tiers, key: string, value: string, ttl: int, now: int,
                       lookup: Status, insert: Status)
    requires MemoryLive(t, key, now) || (lookup.Up? && StoreLive(t, key, now))
    ensures SetSpec(t, key, value, ttl, now, lookup, insert)
         == Step(Some(AlreadyExists), GetSpec(t, key, now, lookup).after)
    ensures SetSpec(t, key, value, ttl, now, lookup, insert).after.store == t.store
    ensures MemoryLive(t, key, now) ==> SetSpec(t, key, value, ttl, now, lookup, insert).after == t
  {
    GetFound(t, key, now, lookup);
  }

  /** A failed nested Get is taken for a miss: Set goes on to write memory and
      to try the insert, even when the table holds a live row it could not
      reach. */
  lemma SetIgnoresLookupError(t: Tiers, key: string, value: string, ttl: int, now: int,
                              insert: Status)
    requires !MemoryLive(t, key, now)
    ensures SetSpec(t, key, value, ttl, now, Down, insert).after.items
         == t.items[key := NewItem(key, value, ttl, now)]
    ensures SetSpec(t, key, value, ttl, now, Down, insert).reply
         == if insert.Down? then Some(StoreFailure)
            else if key in t.store then Some(DuplicateKey) else None
  {
  }

  /** Memory is written before the table and is not rolled back: after a
      failed insert its own error is returned, memory holds the new entry and
      the table does not. */
  lemma SetNoRollback(t: Tiers, key: string, value: string, ttl: int, now: int,
                      lookup: Status, insert: Status)
    requires !GetSpec(t, key, now, lookup).reply.found
    requires insert.Down? || key in t.store
    ensures SetSpec(t, key, value, ttl, now, lookup, insert).reply
         == if insert.Down? then Some(StoreFailure) else Some(DuplicateKey)
    ensures SetSpec(t, key, value, ttl, now, lookup, insert).after.items[key]
         == NewItem(key, value, ttl, now)
    ensures SetSpec(t, key, value, ttl, now, lookup, insert).after.store == t.store
  {
  }

  /** Two Sets of one key before the first one's entry expires: the second is
      refused, changes nothing, and the first value is still what Get finds,
      whatever the table calls do. Since memory is not rolled back, this
      holds even when the first Set's insert failed. */
  lemma InsertOnce(t: Tiers, key: string, v1: string, v2: string, ttl1: int, ttl2: int,
                   now1: int, now2: int, l1: Status, i1: Status, l2: Status, i2: Status,
                   l3: Status)
    requires SetSpec(t, key, v1, ttl1, now1, l1, i1).reply != Some(AlreadyExists)
    requires now2 <= now1 + ttl1
    ensures SetSpec(SetSpec(t, key, v1, ttl1, now1, l1, i1).after, key, v2, ttl2, now2, l2, i2)
         == Step(Some(AlreadyExists), SetSpec(t, key, v1, ttl1, now1, l1, i1).after)
    ensures GetSpec(SetSpec(t, key, v1, ttl1, now1, l1, i1).after, key, now2, l3).reply
         == Reply(v1, true, None)
  {
    var s1 := SetSpec(t, key, v1, ttl1, now1, l1, i1);
    assert MemoryLive(s1.after, key, now2);
    SetRejectsLive(s1.after, key, v2, ttl2, now2, l2, i2);
    GetMemoryHit(s1.after, key, now2, l3);
  }

  /** Once a stored entry's ttl has run out, Get no longer finds it: the
      expired memory record sends Get to the table, whose row is expired too,
      so the answer is a miss (or the store error). */
  lemma SetThenExpire(t: Tiers, key: string, value: string, ttl: int, now: int, later: int,
                      l1: Status, i1: Status, l2: Status)
    requires SetSpec(t, key, value, ttl, now, l1, i1).reply == None
    requires later > now + ttl
    ensures GetSpec(SetSpec(t, key, value, ttl, now, l1, i1).after, key, later, l2).reply
         == if l2.Down? then Reply("", false, Some(StoreFailure)) else Reply("", false, None)
  {
    var s1 := SetSpec(t, key, value, ttl, now, l1, i1);
    assert s1.after.items[key] == NewItem(key, value, ttl, now);
    assert s1.after.store[key] == NewItem(key, value, ttl, now);
  }

  // ---------------------------------------------------------------- Clear

  /** Clear of a key Get does not report live fails with NotExist; the table
      is untouched and memory is as the nested Get left it. */
  lemma ClearRejectsNotLive(t: Tiers, key: string, now: int, lookup: Status, removal: Status)
    requires !GetSpec(t, key, now, lookup).reply.found
    ensures ClearSpec(t, key, now, lookup, removal)
         == Step(Some(NotExist), GetSpec(t, key, now, lookup).after)
  {
  }

  /** Clear of a live key removes it from memory first; a failed table delete
      is then reported, with the entry gone from memory but kept in the
      table. */
  lemma ClearMemoryFirst(t: Tiers, key: string, now: int, lookup: Status, removal: Status)
    requires GetSpec(t, key, now, lookup).reply.found
    ensures ClearSpec(t, key, now, lookup, removal).after.items == t.items - {key}
    ensures ClearSpec(t, key, now, lookup, removal)
         == if removal.Down? then Step(Some(StoreFailure), Tiers(t.items - {key}, t.store))
            else Step(None, Tiers(t.items - {key}, t.store - {key}))
  {
    var g := GetSpec(t, key, now, lookup);
    assert g.after.items - {key} == t.items - {key} by {
      SlotsDetermine(g.after.items - {key}, t.items - {key});
    }
  }

  /** After a successful Clear, clearing the same key again fails, at any
      instant and whatever the table calls do. */
  lemma ClearTwice(t: Tiers, key: string, now: int, now2: int,
                   l1: Status, r1: Status, l2: Status, r2: Status)
    requires ClearSpec(t, key, now, l1, r1).reply == None
    ensures ClearSpec(ClearSpec(t, key, now, l1, r1).after, key, now2, l2, r2).reply == Some(NotExist)
  {
    var c := ClearSpec(t, key, now, l1, r1);
    assert key !in c.after.items && key !in c.after.store;
    GetFound(c.after, key, now2, l2);
  }

  /** Clear undoes a Set of a key the table did not hold: with both tiers
      reachable, the key is gone from both and the table is as before. */
  lemma SetThenClear(t: Tiers, key: string, value: string, ttl: int, now: int, now2: int,
                     l1: Status, i1: Status)
    requires SetSpec(t, key, value, ttl, now, l1, i1).reply == None
    requires now2 <= now + ttl
    ensures ClearSpec(SetSpec(t, key, value, ttl, now, l1, i1).after, key, now2, Up, Up)
         == Step(None, Tiers(t.items - {key}, t.store))
  {
    var s1 := SetSpec(t, key, value, ttl, now, l1, i1);
    assert MemoryLive(s1.after, key, now2);
    ClearMemoryFirst(s1.after, key, now2, Up, Up);
    assert s1.after.items - {key} == t.items - {key} by {
      SlotsDetermine(s1.after.items - {key}, t.items - {key});
    }
    assert t.store[key := NewItem(key, value, ttl, now)] - {key} == t.store;
  }

  // ---------------------------------------------------------------- sweep

  /** The sweep leaves live memory entries and their rows alone. */
  lemma SweepKeepsLive(t: Tiers, now: int, lookup: string -> Status, removal: string -> Status,
                       k: string)
    requires MemoryLive(t, k, now)
    ensures Slot(SweepSpec(t, now, lookup, removal).items, k) == Some(t.items[k])
    ensures Slot(SweepSpec(t, now, lookup, removal).store, k) == Slot(t.store, k)
  {
  }

  /** Keys absent from memory are not visited: a row only in the table
      stays, live or expired. */
  lemma SweepSkipsTableOnly(t: Tiers, now: int, lookup: string -> Status,
                            removal: string -> Status, k: string)
    requires k !in t.items
    ensures k !in SweepSpec(t, now, lookup, removal).items
    ensures Slot(SweepSpec(t, now, lookup, removal).store, k) == Slot(t.store, k)
  {
    assert Slot(SweepSpec(t, now, lookup, removal).items, k) == None;
  }

  /** An expired memory entry leaves memory exactly when Clear's own Get
      finds a live row for it in a reachable table; otherwise it stays,
      still expired (overwritten by the row when the table held an expired
      one), together with any row. When it leaves, its row goes too unless
      the delete call fails. */
  lemma SweepExpired(t: Tiers, now: int, lookup: string -> Status, removal: string -> Status,
                     k: string)
    requires k in t.items && !Live(t.items[k], now)
    ensures k !in SweepSpec(t, now, lookup, removal).items
        <==> lookup(k).Up? && StoreLive(t, k, now)
    ensures k in SweepSpec(t, now, lookup, removal).items ==>
              !Live(SweepSpec(t, now, lookup, removal).items[k], now) &&
              Slot(SweepSpec(t, now, lookup, removal).store, k) == Slot(t.store, k)
    ensures k !in SweepSpec(t, now, lookup, removal).store
        <==> k !in t.store || (lookup(k).Up? && StoreLive(t, k, now) && removal(k).Up?)
  {
    var r := SweepSpec(t, now, lookup, removal);
    var c := ClearSpec(t, k, now, lookup(k), removal(k));
    assert Slot(r.items, k) == Slot(c.after.items, k);
    assert Slot(r.store, k) == Slot(c.after.store, k);
    GetFound(t, k, now, lookup(k));
  }

  // ---------------------------------------------------------------- reset

  /** After a successful reset both tiers are empty, so every Get fails with
      an error: memory misses and the table has no row. */
  lemma ResetThenGet(t: Tiers, key: string, now: int, lookup: Status)
    ensures GetSpec(ResetSpec(t, Up).after, key, now, lookup).reply
         == Reply("", false, Some(if lookup.Down? then StoreFailure else NoRows))
  {
  }

  /** A reset whose table delete fails still empties memory, and the next Get
      promotes a live row straight back. */
  lemma FailedResetResurrects(t: Tiers, key: string, now: int)
    requires StoreLive(t, key, now)
    ensures GetSpec(ResetSpec(t, Down).after, key, now, Up)
         == Step(Reply(t.store[key].value, true, None), Tiers(map[key := t.store[key]], t.store))
  {
  }
}
