/** Keys already processed, with expiry (internal/adapters/memory/idempotency_store.go). */
module IdempotencyStore {

  /** From key to the time it expires at. */
  type Marks = map<string, int>

  /** A key counts as seen up to and including its expiry. */
  predicate SeenAt(marks: Marks, key: string, now: int) {
    key in marks && now <= marks[key]
  }

  /** Seen forgets a key it finds expired. */
  function AfterSeen(marks: Marks, key: string, now: int): Marks {
    if key in marks && now > marks[key] then marks - {key} else marks
  }

  function AfterMark(marks: Marks, key: string, ttl: int, now: int): Marks {
    marks[key := now + ttl]
  }

  class Store {
    var entries: Marks

    constructor ()
      ensures entries == map[]
    {
      entries := map[];
    }

    method Seen(key: string, now: int) returns (seen: bool)
      modifies this
      ensures seen == SeenAt(old(entries), key, now)
      ensures entries == AfterSeen(old(entries), key, now)
      ensures seen <==> key in old(entries) && now <= old(entries)[key]
      ensures key in old(entries) && now > old(entries)[key] ==> entries == old(entries) - {key}
      ensures key !in old(entries) || seen ==> entries == old(entries)
    {
      if key !in entries {
        return false;
      }
      if now > entries[key] {
        entries := entries - {key};
        return false;
      }
      return true;
    }

    method Mark(key: string, ttl: int, now: int)
      modifies this
      ensures entries == AfterMark(old(entries), key, ttl, now)
      ensures key in entries && entries[key] == now + ttl && entries - {key} == old(entries) - {key}
    {
      entries := entries[key := now + ttl];
    }
  }
}
