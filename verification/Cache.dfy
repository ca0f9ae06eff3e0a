/** The two-level cache: a small LRU with its own time to live in front of a larger TTL table.

The LRU keeps a recency list that may hold names whose entries are gone; its promises have to
survive them. Values are of any type `V`.
*/
module Cache {
  import opened Basics

  datatype Entry<V> = Entry(value: V, at: int)

  /** The first level as a value: entries, and names from least to most recently touched. */
  datatype Lru<V> = Lru(entries: map<string, Entry<V>>, names: seq<string>)

  /** Two levels. */
  datatype Levels<V> = Levels(l1: Lru<V>, l2: map<string, Entry<V>>)

  function Without(names: seq<string>, key: string): (r: seq<string>)
    ensures forall n :: n in r <==> n in names && n != key
    ensures |r| <= |names|
  {
    if names == [] then []
    else Without(names[..|names| - 1], key) + if names[|names| - 1] == key then [] else [names[|names| - 1]]
  }

  /** Drop the oldest names and their entries until the list fits. */
  function Trim<V>(c: Lru<V>, capacity: nat): Lru<V>
    decreases |c.names|
  {
    if |c.names| <= capacity then c else Trim(Lru(c.entries - {c.names[0]}, c.names[1..]), capacity)
  }

  function LruGet<V>(c: Lru<V>, ttl: nat, key: string, now: int): (Lru<V>, Option<V>) {
    if key !in c.entries then (c, None)
    else if now - c.entries[key].at > ttl then (c.(entries := c.entries - {key}), None)
    else (c.(names := Without(c.names, key) + [key]), Some(c.entries[key].value))
  }

  function LruSet<V>(c: Lru<V>, capacity: nat, key: string, value: V, now: int): Lru<V> {
    Trim(Lru(c.entries[key := Entry(value, now)], Without(c.names, key) + [key]), capacity)
  }

  function TtlGet<V>(t: map<string, Entry<V>>, ttl: nat, key: string, now: int): (map<string, Entry<V>>, Option<V>) {
    if key !in t then (t, None)
    else if now - t[key].at > ttl then (t - {key}, None)
    else (t, Some(t[key].value))
  }

  datatype Config = Config(l1Capacity: nat, l1Ttl: nat, l2Ttl: nat)

  function LevelsGet<V>(c: Levels<V>, cfg: Config, key: string, now: int): (Levels<V>, Option<V>) {
    var (l1, r1) := LruGet(c.l1, cfg.l1Ttl, key, now);
    if r1.Some? then (Levels(l1, c.l2), r1)
    else
      var (l2, r2) := TtlGet(c.l2, cfg.l2Ttl, key, now);
      if r2.Some? then (Levels(LruSet(l1, cfg.l1Capacity, key, r2.value, now), l2), r2) else (Levels(l1, l2), None)
  }

  function LevelsSet<V>(c: Levels<V>, cfg: Config, key: string, value: V, now: int): Levels<V> {
    Levels(LruSet(c.l1, cfg.l1Capacity, key, value, now), c.l2[key := Entry(value, now)])
  }

  class LruCache<V> {
    const capacity: nat
    const defaultTtl: nat
    var entries: map<string, Entry<V>>
    var lru: seq<string>

    ghost function Value(): Lru<V> reads this { Lru(entries, lru) }

    constructor (capacity: nat, ttl: nat)
      ensures this.capacity == capacity && defaultTtl == ttl && Value() == Lru(map[], [])
    {
      this.capacity, defaultTtl := capacity, ttl;
      entries, lru := map[], [];
    }

    method Get(key: string, now: int) returns (r: Option<V>)
      modifies this
      ensures (Value(), r) == LruGet(old(Value()), defaultTtl, key, now)
    {
      if key !in entries {
        return None;
      }
      var entry := entries[key];
      if now - entry.at > defaultTtl {
        entries := entries - {key};
        return None;
      }
      lru := Without(lru, key);
      lru := lru + [key];
      r := Some(entry.value);
    }

    method Set(key: string, value: V, now: int)
      modifies this
      ensures Value() == LruSet(old(Value()), capacity, key, value, now)
    {
      lru := Without(lru, key);
      lru := lru + [key];
      entries := entries[key := Entry(value, now)];
      while |lru| > capacity
        invariant Trim(Value(), capacity) == LruSet(old(Value()), capacity, key, value, now)
        decreases |lru|
      {
        var evict := lru[0];
        lru := lru[1..];
        entries := entries - {evict};
      }
    }
  }

  class TtlCache<V> {
    const defaultTtl: nat
    var entries: map<string, Entry<V>>

    constructor (ttl: nat)
      ensures defaultTtl == ttl && entries == map[]
    {
      defaultTtl := ttl;
      entries := map[];
    }

    method Get(key: string, now: int) returns (r: Option<V>)
      modifies this
      ensures (entries, r) == TtlGet(old(entries), defaultTtl, key, now)
    {
      if key !in entries {
        return None;
      }
      var e := entries[key];
      if now - e.at > defaultTtl {
        entries := entries - {key};
        return None;
      }
      r := Some(e.value);
    }

    method Set(key: string, value: V, now: int)
      modifies this
      ensures entries == old(entries)[key := Entry(value, now)]
    {
      entries := entries[key := Entry(value, now)];
    }
  }

  class MultiLevelCache<V> {
    const l1: LruCache<V>
    const l2: TtlCache<V>

    ghost function Settings(): Config { Config(l1.capacity, l1.defaultTtl, l2.defaultTtl) }
    ghost function Value(): Levels<V> reads l1, l2 { Levels(l1.Value(), l2.entries) }

    constructor (l1Capacity: nat, l1Ttl: nat, l2Ttl: nat)
      ensures Settings() == Config(l1Capacity, l1Ttl, l2Ttl) && Value() == Levels(Lru(map[], []), map[])
      ensures fresh(l1) && fresh(l2)
    {
      l1 := new LruCache(l1Capacity, l1Ttl);
      l2 := new TtlCache(l2Ttl);
    }

    method Get(key: string, now: int) returns (r: Option<V>)
      modifies l1, l2
      ensures (Value(), r) == LevelsGet(old(Value()), Settings(), key, now)
    {
      r := l1.Get(key, now);
      if r.Some? {
        return;
      }
      r := l2.Get(key, now);
      if r.Some? {
        l1.Set(key, r.value, now);
      }
    }

    method Set(key: string, value: V, now: int)
      modifies l1, l2
      ensures Value() == LevelsSet(old(Value()), Settings(), key, value, now)
    {
      l1.Set(key, value, now);
      l2.Set(key, value, now);
    }
  }
}
