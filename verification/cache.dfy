/**
 * The cache gateway as the pipeline uses it: `has`, `get`, `set` and
 * `clear` over string keys. A store built for the `devnull` driver never
 * keeps anything, so every lookup misses.
 */
module Cache {
  import opened Php

  class CacheStore<V> {
    var entries: map<string, V>
    const keeps: bool

    constructor (keeps: bool)
      ensures entries == map[] && this.keeps == keeps
    {
      entries := map[];
      this.keeps := keeps;
    }

    ghost predicate Valid()
      reads this
    {
      !keeps ==> entries == map[]
    }

    method Has(key: string) returns (b: bool)
      ensures b <==> key in entries
    {
      b := key in entries;
    }

    /** `get($key)`; a miss reads as `None` (the driver's null). */
    method Get(key: string) returns (v: Option<V>)
      ensures v.Some? <==> key in entries
      ensures v.Some? ==> v.value == entries[key]
    {
      v := if key in entries then Some(entries[key]) else None;
    }

    method Set(key: string, v: V)
      requires Valid()
      modifies this
      ensures Valid()
      ensures entries == if keeps then old(entries)[key := v] else old(entries)
    {
      if keeps {
        entries := entries[key := v];
      }
    }

    method Clear()
      modifies this
      ensures Valid() && entries == map[]
    {
      entries := map[];
    }
  }
}
