/** The scan result cache: two tiers (by URL, by content hash), each an in-memory map with a
    hand-maintained counter in front of an optional Redis key space. Every public operation is one
    atomic step; time is a parameter that never runs backwards. */
module ResultCache {
  import opened MapFacts
  import opened Verdicts

  datatype CacheEntry = CacheEntry(finding: Finding, expiresAt: int)

  /** A Redis value; without an expiry it stays until it is overwritten. */
  datatype RedisEntry = RedisEntry(finding: Finding, expiresAt: Option<int>)

  /** Whether Redis answers, and which of the two writes of a Store succeed. */
  datatype Weather = Weather(get: bool, setUrl: bool, setHash: bool)

  datatype Limits = Limits(urlTTL: int, hashTTL: int, maxEntries: int, hasRedis: bool)

  datatype Tier = Tier(entries: map<string, CacheEntry>, count: int, redis: map<string, RedisEntry>)

  // What each operation does to a tier

  function MemHit(t: Tier, key: string, now: int): Option<Finding> {
    if key in t.entries && now < t.entries[key].expiresAt then Some(t.entries[key].finding) else None
  }

  function DropKey(t: Tier, key: string): Tier {
    if key in t.entries then t.(entries := t.entries - {key}, count := t.count - 1) else t
  }

  function StoreMem(t: Tier, key: string, f: Finding, ttl: int, max: int, now: int): Tier {
    if t.count >= max || key in t.entries then t
    else t.(entries := t.entries[key := CacheEntry(f, now + ttl)], count := t.count + 1)
  }

  function RedisGet(t: Tier, key: string, now: int): Option<Finding> {
    if key in t.redis && (t.redis[key].expiresAt.Some? ==> now < t.redis[key].expiresAt.value)
    then Some(t.redis[key].finding) else None
  }

  /** SET with a time to live; a time to live that is not positive means no expiry. */
  function RedisSet(t: Tier, key: string, f: Finding, ttl: int, now: int): Tier {
    t.(redis := t.redis[key := RedisEntry(f, if ttl > 0 then Some(now + ttl) else None)])
  }

  function Get(t: Tier, key: string, ttl: int, max: int, redisUp: bool, now: int): (Tier, Option<Finding>) {
    if MemHit(t, key, now).Some? then (t, MemHit(t, key, now))
    else
      var t' := DropKey(t, key);
      if redisUp && RedisGet(t', key, now).Some?
      then (StoreMem(t', key, RedisGet(t', key, now).value, ttl, max, now), RedisGet(t', key, now))
      else (t', None)
  }

  function Put(t: Tier, key: string, f: Finding, ttl: int, max: int, redisUp: bool, now: int): Tier {
    var t' := StoreMem(t, key, f, ttl, max, now);
    if redisUp then RedisSet(t', key, f, ttl, now) else t'
  }

  function Expired(t: Tier, now: int): set<string> {
    set k | k in t.entries && t.entries[k].expiresAt < now
  }

  function Evict(t: Tier, now: int): Tier {
    t.(entries := t.entries - Expired(t, now), count := t.count - |Expired(t, now)|)
  }

  // The same operations on the heap

  class MemoryTier {
    var entries: map<string, CacheEntry>
    var count: int
    var redis: map<string, RedisEntry>

    constructor ()
      ensures View() == Tier(map[], 0, map[])
    {
      entries, count, redis := map[], 0, map[];
    }

    function View(): Tier
      reads this
    {
      Tier(entries, count, redis)
    }

    method StoreInMemory(key: string, f: Finding, ttl: int, max: int, now: int)
      modifies this`entries, this`count
      ensures View() == StoreMem(old(View()), key, f, ttl, max, now)
    {
      if count >= max {
        return;
      }
      if key !in entries {
        entries := entries[key := CacheEntry(f, now + ttl)];
        count := count + 1;
      }
    }

    method Lookup(key: string, ttl: int, max: int, redisUp: bool, now: int) returns (hit: Option<Finding>)
      modifies this`entries, this`count
      ensures (View(), hit) == Get(old(View()), key, ttl, max, redisUp, now)
    {
      if key in entries {
        var e := entries[key];
        if now < e.expiresAt {
          return Some(e.finding);
        }
        entries := entries - {key};
        count := count - 1;
      }
      if redisUp {
        var payload := RedisGet(View(), key, now);
        if payload.Some? {
          StoreInMemory(key, payload.value, ttl, max, now);
          return payload;
        }
      }
      return None;
    }

    method Save(key: string, f: Finding, ttl: int, max: int, redisUp: bool, now: int)
      modifies this
      ensures View() == Put(old(View()), key, f, ttl, max, redisUp, now)
    {
      StoreInMemory(key, f, ttl, max, now);
      if redisUp {
        redis := redis[key := RedisEntry(f, if ttl > 0 then Some(now + ttl) else None)];
      }
    }

    /** Ranges over the map in any order and deletes what has expired. */
    method EvictExpired(now: int)
      modifies this`entries, this`count
      ensures View() == Evict(old(View()), now)
    {
      var todo := entries.Keys;
      ghost var gone: set<string> := {};
      ghost var before := View();
      while todo != {}
        invariant todo <= before.entries.Keys
        invariant forall k :: k in gone <==> k in Expired(before, now) && k !in todo
        invariant entries == before.entries - gone && count == before.count - |gone|
        decreases todo
      {
        var k :| k in todo;
        todo := todo - {k};
        if entries[k].expiresAt < now {
          RemoveOneMore(before.entries, gone, k);
          entries := entries - {k};
          count := count - 1;
          gone := gone + {k};
        }
      }
      assert gone == Expired(before, now);
    }
  }

  /** The cache object: two tiers and the limits it was made with. */
  class Cache {
    const limits: Limits
    const byURL: MemoryTier
    const byHash: MemoryTier

    ghost predicate Valid() {
      byURL != byHash
    }

    constructor (limits: Limits)
      ensures Valid() && this.limits == limits && fresh(byURL) && fresh(byHash)
      ensures byURL.View() == byHash.View() == Tier(map[], 0, map[])
    {
      this.limits := limits;
      byURL := new MemoryTier();
      byHash := new MemoryTier();
    }

    method GetByURL(key: string, w: Weather, now: int) returns (hit: Option<Finding>)
      requires Valid()
      modifies byURL
      ensures (byURL.View(), hit) ==
        Get(old(byURL.View()), key, limits.urlTTL, limits.maxEntries, limits.hasRedis && w.get, now)
    {
      hit := byURL.Lookup(key, limits.urlTTL, limits.maxEntries, limits.hasRedis && w.get, now);
    }

    method GetByHash(key: string, w: Weather, now: int) returns (hit: Option<Finding>)
      requires Valid()
      modifies byHash
      ensures (byHash.View(), hit) ==
        Get(old(byHash.View()), key, limits.hashTTL, limits.maxEntries, limits.hasRedis && w.get, now)
    {
      hit := byHash.Lookup(key, limits.hashTTL, limits.maxEntries, limits.hasRedis && w.get, now);
    }

    /** Saves a finding under both keys; only clean and infected findings are cached. */
    method Store(urlKey: string, hashKey: string, f: Finding, w: Weather, now: int)
      requires Valid()
      modifies byURL, byHash
      ensures !Cacheable(f.status) ==> byURL.View() == old(byURL.View()) && byHash.View() == old(byHash.View())
      ensures Cacheable(f.status) ==>
        && byURL.View() == Put(old(byURL.View()), urlKey, f, limits.urlTTL, limits.maxEntries, limits.hasRedis && w.setUrl, now)
        && byHash.View() == Put(old(byHash.View()), hashKey, f, limits.hashTTL, limits.maxEntries, limits.hasRedis && w.setHash, now)
    {
      if !Cacheable(f.status) {
        return;
      }
      byURL.Save(urlKey, f, limits.urlTTL, limits.maxEntries, limits.hasRedis && w.setUrl, now);
      byHash.Save(hashKey, f, limits.hashTTL, limits.maxEntries, limits.hasRedis && w.setHash, now);
    }

    method EvictAll(now: int)
      requires Valid()
      modifies byURL, byHash
      ensures byURL.View() == Evict(old(byURL.View()), now) && byHash.View() == Evict(old(byHash.View()), now)
    {
      byURL.EvictExpired(now);
      byHash.EvictExpired(now);
    }
  }
}
