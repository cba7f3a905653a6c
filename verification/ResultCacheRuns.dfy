/** Whole runs of the result cache: counters, staleness, and the infected verdict. */
module ResultCacheRuns {
  import opened Verdicts
  import opened ResultCache

  /** A finding stored under a key at a time, by this instance or by another one on the same Redis. */
  datatype Stored = Stored(key: string, finding: Finding, time: int)

  datatype CacheState = CacheState(url: Tier, hash: Tier, urlLog: set<Stored>, hashLog: set<Stored>, now: int)

  datatype Op =
    | GetByURL(key: string, w: Weather)
    | GetByHash(key: string, w: Weather)
    | Store(urlKey: string, hashKey: string, finding: Finding, w: Weather)
    | RemoteStore(urlKey: string, hashKey: string, finding: Finding)
    | EvictAll
    | Tick(dt: nat)

  function Start(now: int): CacheState {
    CacheState(Tier(map[], 0, map[]), Tier(map[], 0, map[]), {}, {}, now)
  }

  function LookupURL(l: Limits, s: CacheState, key: string, w: Weather): (Tier, Option<Finding>) {
    Get(s.url, key, l.urlTTL, l.maxEntries, l.hasRedis && w.get, s.now)
  }

  function LookupHash(l: Limits, s: CacheState, key: string, w: Weather): (Tier, Option<Finding>) {
    Get(s.hash, key, l.hashTTL, l.maxEntries, l.hasRedis && w.get, s.now)
  }

  function DoStore(l: Limits, s: CacheState, urlKey: string, hashKey: string, f: Finding, w: Weather): CacheState {
    if !Cacheable(f.status) then s
    else s.(url := Put(s.url, urlKey, f, l.urlTTL, l.maxEntries, l.hasRedis && w.setUrl, s.now),
            hash := Put(s.hash, hashKey, f, l.hashTTL, l.maxEntries, l.hasRedis && w.setHash, s.now),
            urlLog := s.urlLog + {Stored(urlKey, f, s.now)},
            hashLog := s.hashLog + {Stored(hashKey, f, s.now)})
  }

  /** What a job concludes that gets as far as the hash lookup: the finding of its scan, or of the URL
      tier, merged with the hash tier's. */
  function MergedFinding(l: Limits, s: CacheState, hashKey: string, scanned: Finding, w: Weather): Finding {
    MergeIfHit(scanned, LookupHash(l, s, hashKey, w).1)
  }

  function Apply(l: Limits, s: CacheState, op: Op): CacheState {
    match op
    case GetByURL(key, w) => s.(url := LookupURL(l, s, key, w).0)
    case GetByHash(key, w) => s.(hash := LookupHash(l, s, key, w).0)
    case Store(urlKey, hashKey, f, w) => DoStore(l, s, urlKey, hashKey, f, w)
    case RemoteStore(urlKey, hashKey, f) =>
      if !l.hasRedis || !Cacheable(f.status) then s
      else s.(url := RedisSet(s.url, urlKey, f, l.urlTTL, s.now), hash := RedisSet(s.hash, hashKey, f, l.hashTTL, s.now),
              urlLog := s.urlLog + {Stored(urlKey, f, s.now)}, hashLog := s.hashLog + {Stored(hashKey, f, s.now)})
    case EvictAll => s.(url := Evict(s.url, s.now), hash := Evict(s.hash, s.now))
    case Tick(dt) => s.(now := s.now + dt)
  }

  function Run(l: Limits, s: CacheState, ops: seq<Op>): CacheState
    decreases |ops|
  {
    if ops == [] then s else Run(l, Apply(l, s, ops[0]), ops[1..])
  }

  // One tier's invariant

  predicate CountExact(t: Tier, max: int) {
    && t.count == |t.entries|
    && (0 <= max ==> t.count <= max)
  }

  /** The longest a finding may be served after it was stored. */
  function Horizon(ttl: int, hasRedis: bool): int {
    if hasRedis then 2 * ttl - 1 else ttl
  }

  ghost predicate Traceable(t: Tier, log: set<Stored>, ttl: int, hasRedis: bool, now: int) {
    && (forall k :: k in t.entries ==> exists time ::
          && Stored(k, t.entries[k].finding, time) in log && time <= now
          && (!hasRedis || ttl > 0 ==> t.entries[k].expiresAt <= time + Horizon(ttl, hasRedis)))
    && (forall k :: k in t.redis ==> hasRedis && exists time ::
          && Stored(k, t.redis[k].finding, time) in log && time <= now
          && t.redis[k].expiresAt == if ttl > 0 then Some(time + ttl) else None)
    && (forall e :: e in log ==> Cacheable(e.finding.status))
  }

  ghost predicate TierInv(t: Tier, log: set<Stored>, ttl: int, max: int, hasRedis: bool, now: int) {
    CountExact(t, max) && Traceable(t, log, ttl, hasRedis, now)
  }

  ghost predicate Inv(l: Limits, s: CacheState) {
    && TierInv(s.url, s.urlLog, l.urlTTL, l.maxEntries, l.hasRedis, s.now)
    && TierInv(s.hash, s.hashLog, l.hashTTL, l.maxEntries, l.hasRedis, s.now)
  }

  lemma DropKeeps(t: Tier, log: set<Stored>, ttl: int, max: int, hasRedis: bool, now: int, key: string)
    requires TierInv(t, log, ttl, max, hasRedis, now)
    ensures TierInv(DropKey(t, key), log, ttl, max, hasRedis, now)
  {
  }

  /** Remembering what Redis answered gives the entry a full time to live of its own. */
  lemma RememberKeeps(t: Tier, log: set<Stored>, ttl: int, max: int, hasRedis: bool, now: int, key: string)
    requires TierInv(t, log, ttl, max, hasRedis, now) && RedisGet(t, key, now).Some?
    ensures TierInv(StoreMem(t, key, RedisGet(t, key, now).value, ttl, max, now), log, ttl, max, hasRedis, now)
  {
  }

  lemma GetKeeps(t: Tier, log: set<Stored>, ttl: int, max: int, hasRedis: bool, up: bool, now: int, key: string)
    requires TierInv(t, log, ttl, max, hasRedis, now)
    ensures TierInv(Get(t, key, ttl, max, hasRedis && up, now).0, log, ttl, max, hasRedis, now)
  {
    DropKeeps(t, log, ttl, max, hasRedis, now, key);
    var t' := DropKey(t, key);
    if RedisGet(t', key, now).Some? {
      RememberKeeps(t', log, ttl, max, hasRedis, now, key);
    }
  }

  lemma StoreMemKeeps(t: Tier, log: set<Stored>, ttl: int, max: int, hasRedis: bool, now: int, key: string, f: Finding)
    requires TierInv(t, log, ttl, max, hasRedis, now) && Cacheable(f.status)
    ensures TierInv(StoreMem(t, key, f, ttl, max, now), log + {Stored(key, f, now)}, ttl, max, hasRedis, now)
  {
  }

  lemma RedisSetKeeps(t: Tier, log: set<Stored>, ttl: int, max: int, now: int, key: string, f: Finding)
    requires TierInv(t, log, ttl, max, true, now) && Cacheable(f.status)
    ensures TierInv(RedisSet(t, key, f, ttl, now), log + {Stored(key, f, now)}, ttl, max, true, now)
  {
  }

  lemma PutKeeps(t: Tier, log: set<Stored>, ttl: int, max: int, hasRedis: bool, up: bool, now: int, key: string, f: Finding)
    requires TierInv(t, log, ttl, max, hasRedis, now) && Cacheable(f.status)
    ensures TierInv(Put(t, key, f, ttl, max, hasRedis && up, now), log + {Stored(key, f, now)}, ttl, max, hasRedis, now)
  {
    var log' := log + {Stored(key, f, now)};
    StoreMemKeeps(t, log, ttl, max, hasRedis, now, key, f);
    if hasRedis {
      RedisSetKeeps(StoreMem(t, key, f, ttl, max, now), log', ttl, max, now, key, f);
      assert log' + {Stored(key, f, now)} == log';
    }
  }

  lemma EvictKeeps(t: Tier, log: set<Stored>, ttl: int, max: int, hasRedis: bool, now: int)
    requires TierInv(t, log, ttl, max, hasRedis, now)
    ensures TierInv(Evict(t, now), log, ttl, max, hasRedis, now)
  {
  }

  lemma TimeKeeps(t: Tier, log: set<Stored>, ttl: int, max: int, hasRedis: bool, now: int, later: int)
    requires TierInv(t, log, ttl, max, hasRedis, now) && now <= later
    ensures TierInv(t, log, ttl, max, hasRedis, later)
  {
  }

  // Whole runs

  lemma StoreKeeps(l: Limits, s: CacheState, urlKey: string, hashKey: string, f: Finding, w: Weather)
    requires Inv(l, s)
    ensures Inv(l, DoStore(l, s, urlKey, hashKey, f, w))
  {
    if Cacheable(f.status) {
      PutKeeps(s.url, s.urlLog, l.urlTTL, l.maxEntries, l.hasRedis, w.setUrl, s.now, urlKey, f);
      PutKeeps(s.hash, s.hashLog, l.hashTTL, l.maxEntries, l.hasRedis, w.setHash, s.now, hashKey, f);
    }
  }

  lemma LookupKeeps(l: Limits, s: CacheState, key: string, w: Weather)
    requires Inv(l, s)
    ensures Inv(l, s.(url := LookupURL(l, s, key, w).0)) && Inv(l, s.(hash := LookupHash(l, s, key, w).0))
  {
    GetKeeps(s.url, s.urlLog, l.urlTTL, l.maxEntries, l.hasRedis, w.get, s.now, key);
    GetKeeps(s.hash, s.hashLog, l.hashTTL, l.maxEntries, l.hasRedis, w.get, s.now, key);
  }

  lemma RemoteStoreKeeps(l: Limits, s: CacheState, urlKey: string, hashKey: string, f: Finding)
    requires Inv(l, s)
    ensures Inv(l, Apply(l, s, RemoteStore(urlKey, hashKey, f)))
  {
    if l.hasRedis && Cacheable(f.status) {
      RedisSetKeeps(s.url, s.urlLog, l.urlTTL, l.maxEntries, s.now, urlKey, f);
      RedisSetKeeps(s.hash, s.hashLog, l.hashTTL, l.maxEntries, s.now, hashKey, f);
    }
  }

  lemma EvictAllKeeps(l: Limits, s: CacheState)
    requires Inv(l, s)
    ensures Inv(l, Apply(l, s, EvictAll))
  {
    EvictKeeps(s.url, s.urlLog, l.urlTTL, l.maxEntries, l.hasRedis, s.now);
    EvictKeeps(s.hash, s.hashLog, l.hashTTL, l.maxEntries, l.hasRedis, s.now);
  }

  lemma TickKeeps(l: Limits, s: CacheState, dt: nat)
    requires Inv(l, s)
    ensures Inv(l, Apply(l, s, Tick(dt)))
  {
    TimeKeeps(s.url, s.urlLog, l.urlTTL, l.maxEntries, l.hasRedis, s.now, s.now + dt);
    TimeKeeps(s.hash, s.hashLog, l.hashTTL, l.maxEntries, l.hasRedis, s.now, s.now + dt);
  }

  lemma ApplyKeeps(l: Limits, s: CacheState, op: Op)
    requires Inv(l, s)
    ensures Inv(l, Apply(l, s, op))
  {
    match op
    case GetByURL(key, w) => LookupKeeps(l, s, key, w);
    case GetByHash(key, w) => LookupKeeps(l, s, key, w);
    case Store(urlKey, hashKey, f, w) => StoreKeeps(l, s, urlKey, hashKey, f, w);
    case RemoteStore(urlKey, hashKey, f) => RemoteStoreKeeps(l, s, urlKey, hashKey, f);
    case EvictAll => EvictAllKeeps(l, s);
    case Tick(dt) => TickKeeps(l, s, dt);
  }

  lemma {:induction false} RunKeeps(l: Limits, s: CacheState, ops: seq<Op>)
    requires Inv(l, s)
    ensures Inv(l, Run(l, s, ops))
    decreases |ops|
  {
    if ops != [] {
      ApplyKeeps(l, s, ops[0]);
      RunKeeps(l, Apply(l, s, ops[0]), ops[1..]);
    }
  }

  lemma StartInv(l: Limits, now: int)
    ensures Inv(l, Start(now))
  {
  }

  /** The counters are the sizes of their maps after every run, and respect a non-negative capacity. */
  lemma CountersAgree(l: Limits, start: int, ops: seq<Op>)
    ensures var s := Run(l, Start(start), ops);
      && s.url.count == |s.url.entries| && s.hash.count == |s.hash.entries|
      && (0 <= l.maxEntries ==> s.url.count <= l.maxEntries && s.hash.count <= l.maxEntries)
  {
    StartInv(l, start);
    RunKeeps(l, Start(start), ops);
  }

  /** The finding was stored under the key less than the horizon ago, and could be. */
  ghost predicate Recent(log: set<Stored>, key: string, f: Finding, horizon: int, now: int) {
    Cacheable(f.status) && exists time :: Stored(key, f, time) in log && time <= now < time + horizon
  }

  /** One lookup: what is served was stored, and not longer ago than the horizon. */
  lemma HitIsRecent(t: Tier, log: set<Stored>, ttl: int, max: int, hasRedis: bool, up: bool, now: int, key: string)
    requires TierInv(t, log, ttl, max, hasRedis, now)
    requires !hasRedis || ttl > 0
    ensures var hit := Get(t, key, ttl, max, hasRedis && up, now).1;
      hit.Some? ==> Recent(log, key, hit.value, Horizon(ttl, hasRedis), now)
  {
    var hit := Get(t, key, ttl, max, hasRedis && up, now).1;
    if MemHit(t, key, now).Some? {
      var time :| Stored(key, t.entries[key].finding, time) in log && time <= now
                  && t.entries[key].expiresAt <= time + Horizon(ttl, hasRedis);
      assert Stored(key, hit.value, time) in log;
    } else if hit.Some? {
      var time :| Stored(key, t.redis[key].finding, time) in log && time <= now
                  && t.redis[key].expiresAt == Some(time + ttl);
      assert Stored(key, hit.value, time) in log;
    }
  }

  /** Staleness: after every run, a URL hit was stored less than one time to live ago without Redis,
      and with it at least one tick less than two ago, whichever instance stored it. */
  lemma UrlHitsAreRecent(l: Limits, start: int, ops: seq<Op>, key: string, w: Weather)
    requires !l.hasRedis || l.urlTTL > 0
    ensures var s := Run(l, Start(start), ops);
      var hit := LookupURL(l, s, key, w).1;
      hit.Some? ==> Recent(s.urlLog, key, hit.value, Horizon(l.urlTTL, l.hasRedis), s.now)
  {
    StartInv(l, start);
    RunKeeps(l, Start(start), ops);
    var s := Run(l, Start(start), ops);
    HitIsRecent(s.url, s.urlLog, l.urlTTL, l.maxEntries, l.hasRedis, w.get, s.now, key);
  }

  lemma HashHitsAreRecent(l: Limits, start: int, ops: seq<Op>, key: string, w: Weather)
    requires !l.hasRedis || l.hashTTL > 0
    ensures var s := Run(l, Start(start), ops);
      var hit := LookupHash(l, s, key, w).1;
      hit.Some? ==> Recent(s.hashLog, key, hit.value, Horizon(l.hashTTL, l.hasRedis), s.now)
  {
    StartInv(l, start);
    RunKeeps(l, Start(start), ops);
    var s := Run(l, Start(start), ops);
    HitIsRecent(s.hash, s.hashLog, l.hashTTL, l.maxEntries, l.hasRedis, w.get, s.now, key);
  }

  /** The condition on the time to live is needed: with Redis and a time to live that is not positive,
      a finding stored once is served after any delay. */
  lemma NonPositiveTtlNeverExpires(l: Limits, start: int, dt: nat, w: Weather)
    requires l.hasRedis && l.urlTTL <= 0 && w.get && w.setUrl
    ensures var s := Run(l, Start(start), [Store("u", "h", Finding(Clean, ""), w), Tick(dt)]);
      LookupURL(l, s, "u", w).1 == Some(Finding(Clean, "")) && s.now == start + dt
      && s.urlLog == {Stored("u", Finding(Clean, ""), start)}
  {
    var ops := [Store("u", "h", Finding(Clean, ""), w), Tick(dt)];
    assert ops[1..] == [Tick(dt)];
    var s1 := Apply(l, Start(start), ops[0]);
    assert Run(l, s1, [Tick(dt)]) == Run(l, Apply(l, s1, Tick(dt)), []);
  }

  /** The horizon is reached: through Redis a finding is served at the last moment the bound allows, because
      a Redis hit enters memory with a full time to live. */
  lemma RedisDoublesStaleness(l: Limits, start: int, f: Finding, w: Weather)
    requires l.hasRedis && l.urlTTL > 1 && l.maxEntries > 0 && w.get && Cacheable(f.status)
    ensures var s := Run(l, Start(start), [RemoteStore("u", "h", f), Tick(l.urlTTL - 1), GetByURL("u", w), Tick(l.urlTTL - 1)]);
      LookupURL(l, s, "u", w).1 == Some(f) && s.now == start + Horizon(l.urlTTL, true) - 1 && s.urlLog == {Stored("u", f, start)}
  {
    var s1 := Apply(l, Start(start), RemoteStore("u", "h", f));
    var s2 := Apply(l, s1, Tick(l.urlTTL - 1));
    var s3 := Apply(l, s2, GetByURL("u", w));
    var s4 := Apply(l, s3, Tick(l.urlTTL - 1));
    assert s3.url.entries["u"] == CacheEntry(f, start + 2 * l.urlTTL - 1);
    assert Run(l, s3, [Tick(l.urlTTL - 1)]) == Run(l, s4, []);
    assert [GetByURL("u", w), Tick(l.urlTTL - 1)][1..] == [Tick(l.urlTTL - 1)];
    assert Run(l, s2, [GetByURL("u", w), Tick(l.urlTTL - 1)]) == s4;
    var ops := [Tick(l.urlTTL - 1), GetByURL("u", w), Tick(l.urlTTL - 1)];
    assert ops[1..] == [GetByURL("u", w), Tick(l.urlTTL - 1)];
    assert Run(l, s1, ops) == s4;
    assert [RemoteStore("u", "h", f), Tick(l.urlTTL - 1), GetByURL("u", w), Tick(l.urlTTL - 1)][1..] == ops;
  }

  /** Eviction never takes away an answer: any lookup from now on hits exactly what it would have hit. */
  lemma EvictionIsInvisible(t: Tier, key: string, now: int, later: int)
    requires now <= later
    ensures MemHit(Evict(t, now), key, later) == MemHit(t, key, later)
    ensures forall k :: k in t.entries && k !in Evict(t, now).entries ==> MemHit(t, k, now).None?
  {
  }

  /** Eviction leaves no expired entry and takes no other; it frees as much room as there were expired ones, so
      that after it a new finding can be stored in a tier that was full of them. */
  lemma EvictionIsExact(t: Tier, now: int, max: int)
    requires CountExact(t, max)
    ensures var t' := Evict(t, now);
      && (forall k :: k in t'.entries <==> k in t.entries && now <= t.entries[k].expiresAt)
      && (forall k :: k in t'.entries ==> t'.entries[k] == t.entries[k])
      && t'.count == |t'.entries|
      && ((exists k :: k in t.entries && t.entries[k].expiresAt < now) ==> t'.count < t.count)
  {
    var gone := Expired(t, now);
    if k :| k in t.entries && t.entries[k].expiresAt < now {
      assert k in gone;
    }
  }

  /** In memory-only mode, what was just stored is found if and only if the tier has room and no entry
      for the key, or a live entry that already says the same. */
  lemma StoredIsFoundIff(t: Tier, key: string, f: Finding, ttl: int, max: int, now: int)
    ensures Get(Put(t, key, f, ttl, max, false, now), key, ttl, max, false, now).1 == Some(f) <==>
      (if key in t.entries then MemHit(t, key, now) == Some(f) else t.count < max && ttl > 0)
  {
  }

  // The infected verdict

  /** The hash tier holds this entry for the content, and it says infected. */
  predicate HoldsInfected(s: CacheState, hashKey: string, e: CacheEntry) {
    hashKey in s.hash.entries && s.hash.entries[hashKey] == e && e.finding.status == Infected
  }

  lemma InfectedStays(l: Limits, s: CacheState, op: Op, hashKey: string, e: CacheEntry)
    requires HoldsInfected(s, hashKey, e) && s.now < e.expiresAt
    ensures HoldsInfected(Apply(l, s, op), hashKey, e)
  {
  }

  lemma {:induction false} NowAdvances(l: Limits, s: CacheState, ops: seq<Op>)
    ensures s.now <= Run(l, s, ops).now
    decreases |ops|
  {
    if ops != [] {
      NowAdvances(l, Apply(l, s, ops[0]), ops[1..]);
    }
  }

  lemma {:induction false} InfectedStaysOverRuns(l: Limits, s: CacheState, ops: seq<Op>, hashKey: string, e: CacheEntry)
    requires HoldsInfected(s, hashKey, e) && Run(l, s, ops).now < e.expiresAt
    ensures HoldsInfected(Run(l, s, ops), hashKey, e)
    decreases |ops|
  {
    if ops != [] {
      NowAdvances(l, s, ops);
      InfectedStays(l, s, ops[0], hashKey, e);
      InfectedStaysOverRuns(l, Apply(l, s, ops[0]), ops[1..], hashKey, e);
    }
  }

  /** Infected is sticky: until a hash entry that says infected expires, no sequence of operations of any
      kind turns it, and every job on that content that looks it up concludes infected, whatever its own
      scan or a cached URL says; if those say anything else, it names the cached threat. A job whose file
      cannot be opened, whose body is too large or whose scan fails does not look it up. */
  lemma InfectedIsSticky(l: Limits, s: CacheState, ops: seq<Op>, hashKey: string, e: CacheEntry, other: Finding, w: Weather)
    requires HoldsInfected(s, hashKey, e) && Run(l, s, ops).now < e.expiresAt
    ensures var f := MergedFinding(l, Run(l, s, ops), hashKey, other, w);
      f == (if other.status == Infected then other else e.finding) && f.status == Infected
  {
    InfectedStaysOverRuns(l, s, ops, hashKey, e);
  }

  /** Merging takes the more restrictive side: the job is infected if either side is, and otherwise the
      cached side changes nothing. */
  lemma MergeIsMoreRestrictive(a: Finding, b: Finding)
    ensures Merge(a, b).status == Infected <==> a.status == Infected || b.status == Infected
    ensures Merge(a, b).status != Infected ==> Merge(a, b) == a
    ensures Merge(a, b) == a || Merge(a, b) == b
  {
  }
}
