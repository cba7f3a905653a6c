/** The leaf certificate cache: an in-process map with a hand-maintained counter, then Redis, then a
    freshly generated certificate. Times are nanoseconds; Redis keeps whole seconds. */
module LeafCache {
  import opened MapFacts

  const SECOND := 1_000_000_000
  const DAY := 24 * 3600 * SECOND
  const YEAR := 365 * DAY
  const MEM_MAX := 2000

  /** A certificate as encoded: its expiry is in whole seconds. */
  datatype Cert = Cert(name: string, notAfter: int, serial: int)

  /** What a Redis key holds: a record with its expiry in seconds, whose PEM parses or not, or junk. */
  datatype Payload = Record(cert: Cert, parses: bool, notAfterUnix: int) | Junk

  datatype MemEntry = MemEntry(cert: Cert, expiresAt: int)

  datatype GetError = ParseFailed | GenerateFailed

  datatype Outcome = Served(cert: Cert) | Refused(error: GetError)

  /** What the surroundings do during one call: Redis answers reads and writes or not, key generation
      succeeds or not, and the serial number it draws. */
  datatype Luck = Luck(redisGet: bool, redisSet: bool, redisDel: bool, generates: bool, serial: int)

  datatype LeafState = LeafState(mem: map<string, MemEntry>, count: int, redis: map<string, Payload>, now: int)

  function Domain(serverName: string): string {
    if serverName == "" then "localhost" else serverName
  }

  /** Go's t.Unix(): whole seconds, rounded down. */
  function Unix(t: int): int {
    t / SECOND
  }

  predicate LongLived(expiresAt: int, now: int) {
    now + DAY < expiresAt
  }

  // What each operation does

  function Remember(s: LeafState, domain: string, cert: Cert, notAfter: int): LeafState {
    if s.count >= MEM_MAX then s
    else s.(mem := s.mem[domain := MemEntry(cert, notAfter)], count := s.count + 1)
  }

  function Forget(s: LeafState, domain: string): LeafState {
    if domain in s.mem then s.(mem := s.mem - {domain}, count := s.count - 1) else s
  }

  /** A certificate for a year; encoding drops the fraction of a second. */
  function Issue(domain: string, now: int, serial: int): Cert {
    Cert(domain, Unix(now + YEAR) * SECOND, serial)
  }

  function Generate(s: LeafState, domain: string, luck: Luck): (LeafState, Outcome) {
    if !luck.generates then (s, Refused(GenerateFailed))
    else
      var cert := Issue(domain, s.now, luck.serial);
      var saved := if luck.redisSet then s.(redis := s.redis[domain := Record(cert, true, Unix(cert.notAfter))]) else s;
      (Remember(saved, domain, cert, s.now + YEAR), Served(cert))
  }

  function FromRedis(s: LeafState, domain: string, luck: Luck): (LeafState, Outcome) {
    if !luck.redisGet || domain !in s.redis then Generate(s, domain, luck)
    else
      var p := s.redis[domain];
      if p.Record? && LongLived(p.notAfterUnix * SECOND, s.now) then
        if !p.parses then (s, Refused(ParseFailed))
        else (Remember(s, domain, p.cert, p.notAfterUnix * SECOND), Served(p.cert))
      else Generate(if luck.redisDel then s.(redis := s.redis - {domain}) else s, domain, luck)
  }

  function Get(s: LeafState, serverName: string, luck: Luck): (LeafState, Outcome) {
    var domain := Domain(serverName);
    if domain in s.mem && LongLived(s.mem[domain].expiresAt, s.now) then (s, Served(s.mem[domain].cert))
    else FromRedis(Forget(s, domain), domain, luck)
  }

  function Expired(s: LeafState): set<string> {
    set k | k in s.mem && s.mem[k].expiresAt < s.now
  }

  function Evict(s: LeafState): LeafState {
    s.(mem := s.mem - Expired(s), count := s.count - |Expired(s)|)
  }

  class Cache {
    var mem: map<string, MemEntry>
    var count: int
    var redis: map<string, Payload>

    constructor (redis: map<string, Payload>)
      ensures mem == map[] && count == 0 && this.redis == redis
    {
      mem, count, this.redis := map[], 0, redis;
    }

    function View(now: int): LeafState
      reads this
    {
      LeafState(mem, count, redis, now)
    }

    method StoreMem(domain: string, cert: Cert, notAfter: int)
      modifies this`mem, this`count
      ensures forall now :: View(now) == Remember(old(View(now)), domain, cert, notAfter)
    {
      if count >= MEM_MAX {
        return;
      }
      mem := mem[domain := MemEntry(cert, notAfter)];
      count := count + 1;
    }

    method GetCert(serverName: string, luck: Luck, now: int) returns (r: Outcome)
      modifies this
      ensures (View(now), r) == Get(old(View(now)), serverName, luck)
    {
      var domain := Domain(serverName);
      if domain in mem {
        var e := mem[domain];
        if LongLived(e.expiresAt, now) {
          return Served(e.cert);
        }
        mem := mem - {domain};
        count := count - 1;
      }
      if luck.redisGet && domain in redis {
        var payload := redis[domain];
        if payload.Record? && LongLived(payload.notAfterUnix * SECOND, now) {
          if !payload.parses {
            return Refused(ParseFailed);
          }
          StoreMem(domain, payload.cert, payload.notAfterUnix * SECOND);
          return Served(payload.cert);
        }
        if luck.redisDel {
          redis := redis - {domain};
        }
      }
      if !luck.generates {
        return Refused(GenerateFailed);
      }
      var notAfter := now + YEAR;
      var cert := Issue(domain, now, luck.serial);
      if notAfter - now - DAY > 0 && luck.redisSet {
        redis := redis[domain := Record(cert, true, Unix(notAfter))];
      }
      StoreMem(domain, cert, notAfter);
      return Served(cert);
    }

    method EvictExpired(now: int)
      modifies this`mem, this`count
      ensures View(now) == Evict(old(View(now)))
    {
      var todo := mem.Keys;
      ghost var gone: set<string> := {};
      ghost var before := View(now);
      while todo != {}
        invariant todo <= before.mem.Keys
        invariant forall k :: k in gone <==> k in Expired(before) && k !in todo
        invariant mem == before.mem - gone && count == before.count - |gone|
        decreases todo
      {
        var k :| k in todo;
        todo := todo - {k};
        if mem[k].expiresAt < now {
          RemoveOneMore(before.mem, gone, k);
          mem := mem - {k};
          count := count - 1;
          gone := gone + {k};
        }
      }
      assert gone == Expired(before);
    }
  }

  // Runs

  datatype Op =
    | GetCert(serverName: string, luck: Luck)
    | EvictExpired
    | RedisLoses(domain: string)                // a key expires, is evicted or is lost
    | PeerSaves(domain: string, cert: Cert)     // another proxy on the same Redis saves what it generated
    | Corrupted(domain: string, payload: Payload)
    | Tick(dt: nat)

  /** Another proxy generates like this one; damage to a record leaves it undecodable or unparsable. */
  predicate Possible(op: Op) {
    && (op.PeerSaves? ==> op.cert.name == op.domain)
    && (op.Corrupted? ==> op.payload.Junk? || !op.payload.parses)
  }

  function Apply(s: LeafState, op: Op): LeafState {
    match op
    case GetCert(name, luck) => Get(s, name, luck).0
    case EvictExpired => Evict(s)
    case RedisLoses(domain) => s.(redis := s.redis - {domain})
    case PeerSaves(domain, cert) => s.(redis := s.redis[domain := Record(cert, true, Unix(cert.notAfter))])
    case Corrupted(domain, payload) => s.(redis := s.redis[domain := payload])
    case Tick(dt) => s.(now := s.now + dt)
  }

  function Run(s: LeafState, ops: seq<Op>): LeafState
    decreases |ops|
  {
    if ops == [] then s else Run(Apply(s, ops[0]), ops[1..])
  }

  predicate AllPossible(ops: seq<Op>) {
    forall i :: 0 <= i < |ops| ==> Possible(ops[i])
  }

  /** What memory records of a certificate's expiry: the whole seconds are not beyond what is encoded, and if
      a fraction was recorded, they are what is encoded. */
  predicate Records(e: MemEntry) {
    && Unix(e.expiresAt) * SECOND <= e.cert.notAfter
    && (e.expiresAt % SECOND != 0 ==> Unix(e.expiresAt) * SECOND == e.cert.notAfter)
  }

  /** Every certificate is for its key; memory overstates how long it lasts by less than a second, Redis
      not at all. */
  predicate Sound(s: LeafState) {
    && s.count == |s.mem| <= MEM_MAX
    && (forall d :: d in s.mem ==> s.mem[d].cert.name == d && Records(s.mem[d]))
    && (forall d :: d in s.redis && s.redis[d].Record? && s.redis[d].parses ==>
          s.redis[d].cert.name == d && s.redis[d].notAfterUnix * SECOND <= s.redis[d].cert.notAfter)
  }

  lemma ForgetKeeps(s: LeafState, domain: string)
    requires Sound(s)
    ensures Sound(Forget(s, domain)) && domain !in Forget(s, domain).mem
  {
  }

  /** The counter stays exact only because nothing is stored over an entry that is still there. */
  lemma RememberKeeps(s: LeafState, domain: string, cert: Cert, notAfter: int)
    requires Sound(s) && domain !in s.mem
    requires cert.name == domain && Records(MemEntry(cert, notAfter))
    ensures Sound(Remember(s, domain, cert, notAfter))
  {
  }

  lemma SaveKeeps(s: LeafState, domain: string, cert: Cert)
    requires Sound(s) && cert.name == domain
    ensures Sound(s.(redis := s.redis[domain := Record(cert, true, Unix(cert.notAfter))]))
  {
  }

  lemma IssueRecords(domain: string, now: int, serial: int)
    ensures Records(MemEntry(Issue(domain, now, serial), now + YEAR))
  {
  }

  lemma GenerateKeeps(s: LeafState, domain: string, luck: Luck)
    requires Sound(s) && domain !in s.mem
    ensures Sound(Generate(s, domain, luck).0)
  {
    var cert := Issue(domain, s.now, luck.serial);
    IssueRecords(domain, s.now, luck.serial);
    SaveKeeps(s, domain, cert);
    var saved := if luck.redisSet then s.(redis := s.redis[domain := Record(cert, true, Unix(cert.notAfter))]) else s;
    RememberKeeps(saved, domain, cert, s.now + YEAR);
  }

  lemma FromRedisKeeps(s: LeafState, domain: string, luck: Luck)
    requires Sound(s) && domain !in s.mem
    ensures Sound(FromRedis(s, domain, luck).0)
  {
    GenerateKeeps(s, domain, luck);
    GenerateKeeps(s.(redis := s.redis - {domain}), domain, luck);
    if domain in s.redis && s.redis[domain].Record? && s.redis[domain].parses {
      RememberKeeps(s, domain, s.redis[domain].cert, s.redis[domain].notAfterUnix * SECOND);
    }
  }

  lemma GetKeeps(s: LeafState, serverName: string, luck: Luck)
    requires Sound(s)
    ensures Sound(Get(s, serverName, luck).0)
  {
    ForgetKeeps(s, Domain(serverName));
    FromRedisKeeps(Forget(s, Domain(serverName)), Domain(serverName), luck);
  }

  lemma ApplyKeeps(s: LeafState, op: Op)
    requires Sound(s) && Possible(op)
    ensures Sound(Apply(s, op))
  {
    if op.GetCert? {
      GetKeeps(s, op.serverName, op.luck);
    }
  }

  lemma {:induction false} RunKeeps(s: LeafState, ops: seq<Op>)
    requires Sound(s) && AllPossible(ops)
    ensures Sound(Run(s, ops))
    decreases |ops|
  {
    if ops != [] {
      assert Possible(ops[0]);
      ApplyKeeps(s, ops[0]);
      RunKeeps(Apply(s, ops[0]), ops[1..]);
    }
  }

  // Which certificate is served

  /** Memory holds a certificate for the domain with more than a day left. */
  predicate FreshInMemory(s: LeafState, domain: string) {
    domain in s.mem && s.now + DAY < s.mem[domain].expiresAt
  }

  /** Redis answers with a record for the domain with more than a day left. */
  predicate FreshInRedis(s: LeafState, domain: string, luck: Luck) {
    luck.redisGet && domain in s.redis && s.redis[domain].Record? && s.now + DAY < s.redis[domain].notAfterUnix * SECOND
  }

  /** Memory comes before Redis and Redis before a new certificate; an unreadable record is an error. */
  lemma WhichIsServed(s: LeafState, serverName: string, luck: Luck)
    ensures var domain, r := if serverName == "" then "localhost" else serverName, Get(s, serverName, luck).1;
      && (FreshInMemory(s, domain) ==> r == Served(s.mem[domain].cert))
      && (!FreshInMemory(s, domain) && FreshInRedis(s, domain, luck) ==>
            r == if s.redis[domain].parses then Served(s.redis[domain].cert) else Refused(ParseFailed))
      && (!FreshInMemory(s, domain) && !FreshInRedis(s, domain, luck) ==>
            if luck.generates then r.Served? && r.cert.name == domain && r.cert.serial == luck.serial
            else r == Refused(GenerateFailed))
  {
  }

  /** What was served is remembered, if memory has room, and while more than a day is left it is served again
      from memory. */
  lemma CertIsReused(s: LeafState, serverName: string, first: Luck, dt: nat, second: Luck)
    requires Sound(s)
    ensures var t, r, domain := Get(s, serverName, first).0, Get(s, serverName, first).1, Domain(serverName);
      r.Served? ==>
        && (s.count < MEM_MAX ==> FreshInMemory(t, domain))
        && (FreshInMemory(t.(now := t.now + dt), domain) ==> Get(t.(now := t.now + dt), serverName, second).1 == r)
  {
  }

  /** What was generated is shared, if Redis takes it: while more than a day is left, a proxy on the same Redis
      that has nothing for the domain in memory serves it. */
  lemma CertIsShared(s: LeafState, serverName: string, first: Luck, peer: LeafState, second: Luck)
    requires !FreshInMemory(s, Domain(serverName)) && !FreshInRedis(s, Domain(serverName), first)
    requires first.redisSet && second.redisGet
    requires peer.redis == Get(s, serverName, first).0.redis && Domain(serverName) !in peer.mem
    ensures var r := Get(s, serverName, first).1;
      r.Served? && peer.now + DAY < r.cert.notAfter ==> Get(peer, serverName, second).1 == r
  {
    var domain := Domain(serverName);
    if first.generates {
      var cert := Issue(domain, s.now, first.serial);
      assert Get(s, serverName, first).0.redis[domain] == Record(cert, true, Unix(cert.notAfter));
      assert Unix(cert.notAfter) * SECOND == cert.notAfter;
    }
  }

  /** Eviction leaves no expired entry and takes no other; it frees as much room as there were expired ones. */
  lemma EvictionIsExact(s: LeafState)
    requires Sound(s)
    ensures var t := Evict(s);
      && (forall d :: d in t.mem <==> d in s.mem && s.now <= s.mem[d].expiresAt)
      && (forall d :: d in t.mem ==> t.mem[d] == s.mem[d])
      && t.count == |t.mem| && ((exists d :: d in s.mem && s.mem[d].expiresAt < s.now) ==> t.count < s.count)
  {
    var gone := Expired(s);
    if d :| d in s.mem && s.mem[d].expiresAt < s.now {
      assert d in gone;
    }
  }

  /** The entry is served although a day from now is already in the last second that it recorded. */
  predicate InLastSecond(t: LeafState, domain: string) {
    && domain in t.mem && LongLived(t.mem[domain].expiresAt, t.now)
    && Unix(t.now + DAY) == Unix(t.mem[domain].expiresAt)
  }

  lemma SecondsApart(a: int, b: int)
    ensures a < b ==> Unix(a) <= Unix(b)
    ensures Unix(a) < Unix(b) ==> a < Unix(b) * SECOND
    ensures Unix(a) * SECOND <= a < Unix(a) * SECOND + SECOND
    ensures a < b && Unix(a) == Unix(b) ==> b % SECOND != 0
  {
  }

  lemma MemoryHitIsGood(t: LeafState, domain: string)
    requires Sound(t) && domain in t.mem && LongLived(t.mem[domain].expiresAt, t.now)
    ensures var cert := t.mem[domain].cert;
      && cert.name == domain && t.now + DAY < cert.notAfter + SECOND
      && (t.now + DAY < cert.notAfter <==> !InLastSecond(t, domain))
  {
    SecondsApart(t.now + DAY, t.mem[domain].expiresAt);
  }

  lemma FromRedisIsGood(t: LeafState, domain: string, luck: Luck)
    requires Sound(t)
    ensures var r := FromRedis(t, domain, luck).1;
      r.Served? ==> r.cert.name == domain && t.now + DAY < r.cert.notAfter
  {
  }

  /** Whichever tier serves it, after every run: a certificate returned is for the requested name; it stays
      valid for more than a day if and only if it is not served from memory in the last second recorded
      there, and then it is less than a second short. The counter is the size of the map and within its
      bound. */
  lemma ServedCertIsGood(s: LeafState, ops: seq<Op>, serverName: string, luck: Luck)
    requires Sound(s) && AllPossible(ops)
    ensures var t, domain := Run(s, ops), Domain(serverName);
      && t.count == |t.mem| <= MEM_MAX
      && var r := Get(t, serverName, luck).1;
         r.Served? ==>
           && r.cert.name == domain
           && (t.now + DAY < r.cert.notAfter <==> !InLastSecond(t, domain))
           && t.now + DAY < r.cert.notAfter + SECOND
  {
    RunKeeps(s, ops);
    var t, domain := Run(s, ops), Domain(serverName);
    if domain in t.mem && LongLived(t.mem[domain].expiresAt, t.now) {
      MemoryHitIsGood(t, domain);
    } else {
      ForgetKeeps(t, domain);
      FromRedisIsGood(Forget(t, domain), domain, luck);
    }
  }

  /** Such a moment is reached: a certificate issued one nanosecond after a full second is still served from
      memory when it has exactly a day left. */
  lemma MemoryServesADayLeft(serverName: string, luck: Luck)
    requires luck.generates
    ensures var s := LeafState(map[], 0, map[], 1);
      var t := Run(s, [GetCert(serverName, luck.(redisGet := false)), Tick(YEAR - DAY - 1)]);
      Sound(s) && Get(t, serverName, luck).1.Served? && t.now + DAY == Get(t, serverName, luck).1.cert.notAfter
  {
    var s := LeafState(map[], 0, map[], 1);
    var first := GetCert(serverName, luck.(redisGet := false));
    var ops := [first, Tick(YEAR - DAY - 1)];
    assert ops[1..] == [Tick(YEAR - DAY - 1)];
    var s1 := Apply(s, first);
    assert s1.mem[Domain(serverName)] == MemEntry(Issue(Domain(serverName), 1, luck.serial), 1 + YEAR);
    assert Run(s1, [Tick(YEAR - DAY - 1)]) == Run(Apply(s1, Tick(YEAR - DAY - 1)), []);
    assert Unix(1 + YEAR) * SECOND == YEAR;
  }
}
