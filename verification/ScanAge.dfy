/** How old the scan behind a cached verdict can be. A job is told the scanner's answer, then looks its
    content up in the hash tier, then stores what it concluded under its own URL and the content; other
    jobs and time come in between. What it stores may repeat an older scan that it found in the hash tier. */
module ScanAge {
  import opened Verdicts
  import opened ResultCache
  import opened ResultCacheRuns

  /** A scanner's answer about some content, with its time. */
  datatype Scanned = Scanned(hashKey: string, finding: Finding, time: int)

  /** A job between its scanner's answer and its store. Its finding repeats the scan made at born; if that is
      not its own scan, due is when the hash entry it was taken from expires. */
  datatype Job = Job(hashKey: string, finding: Finding, born: int, due: Option<int>, merged: bool)

  /** The cache operations that are not a job's store. */
  type OtherOp = op: Op | !op.Store? witness EvictAll

  datatype Event =
    | Answers(job: nat, hashKey: string, finding: Finding)
    | LooksUp(job: nat, w: Weather)
    | Stores(job: nat, urlKey: string, w: Weather)
    | Other(op: OtherOp)

  /** The cache, the jobs under way and, as history, the scans made and the time of the scan that each
      entry made in memory repeats. */
  datatype World = World(
    cache: CacheState, jobs: map<nat, Job>, urlBorn: map<string, int>, hashBorn: map<string, int>, scans: set<Scanned>)

  function Begin(start: int): World {
    World(Start(start), map[], map[], map[], {})
  }

  predicate CanLookUp(w: World, j: nat) {
    j in w.jobs && !w.jobs[j].merged
  }

  predicate CanStore(w: World, j: nat) {
    j in w.jobs && w.jobs[j].merged
  }

  /** The job after its lookup: the merged finding, and where it comes from. */
  function Conclude(w: World, job: Job, hit: Option<Finding>): Job {
    var merged := MergeIfHit(job.finding, hit);
    if merged == job.finding then job.(merged := true)
    else Job(job.hashKey, merged,
             if job.hashKey in w.hashBorn then w.hashBorn[job.hashKey] else job.born,
             if job.hashKey in w.cache.hash.entries then Some(w.cache.hash.entries[job.hashKey].expiresAt) else None,
             true)
  }

  function LookUp(l: Limits, w: World, j: nat, wx: Weather): World
    requires CanLookUp(w, j)
  {
    var got := LookupHash(l, w.cache, w.jobs[j].hashKey, wx);
    w.(cache := w.cache.(hash := got.0), jobs := w.jobs[j := Conclude(w, w.jobs[j], got.1)])
  }

  function Birth(born: map<string, int>, before: Tier, after: Tier, key: string, time: int): map<string, int> {
    if key !in before.entries && key in after.entries then born[key := time] else born
  }

  function StoreJob(l: Limits, w: World, j: nat, urlKey: string, wx: Weather): World
    requires CanStore(w, j)
  {
    var job := w.jobs[j];
    var after := DoStore(l, w.cache, urlKey, job.hashKey, job.finding, wx);
    World(after, w.jobs - {j}, Birth(w.urlBorn, w.cache.url, after.url, urlKey, job.born),
          Birth(w.hashBorn, w.cache.hash, after.hash, job.hashKey, job.born), w.scans)
  }

  function Step(l: Limits, w: World, e: Event): World {
    match e
    case Answers(j, hashKey, f) =>
      w.(jobs := w.jobs[j := Job(hashKey, f, w.cache.now, None, false)], scans := w.scans + {Scanned(hashKey, f, w.cache.now)})
    case LooksUp(j, wx) => if CanLookUp(w, j) then LookUp(l, w, j, wx) else w
    case Stores(j, urlKey, wx) => if CanStore(w, j) then StoreJob(l, w, j, urlKey, wx) else w
    case Other(op) => w.(cache := Apply(l, w.cache, op))
  }

  function Steps(l: Limits, w: World, es: seq<Event>): World
    decreases |es|
  {
    if es == [] then w else Steps(l, Step(l, w, es[0]), es[1..])
  }

  // Every hit repeats a scan

  predicate RepeatsSame(t: Tier, born: map<string, int>, scans: set<Scanned>) {
    forall k :: k in t.entries ==> k in born && Scanned(k, t.entries[k].finding, born[k]) in scans
  }

  ghost predicate IsScan(scans: set<Scanned>, f: Finding, time: int) {
    exists hk :: Scanned(hk, f, time) in scans
  }

  ghost predicate RepeatsSome(t: Tier, born: map<string, int>, scans: set<Scanned>) {
    forall k :: k in t.entries ==> k in born && IsScan(scans, t.entries[k].finding, born[k])
  }

  /** Every entry and every pending finding repeats a scan of the recorded time; in the hash tier and in a
      job, one of the same content. */
  ghost predicate Repeats(w: World) {
    && RepeatsSame(w.cache.hash, w.hashBorn, w.scans)
    && RepeatsSome(w.cache.url, w.urlBorn, w.scans)
    && (forall j :: j in w.jobs ==> Scanned(w.jobs[j].hashKey, w.jobs[j].finding, w.jobs[j].born) in w.scans)
    && (forall d :: d in w.scans ==> d.time <= w.cache.now)
  }

  lemma AnswersRepeats(l: Limits, w: World, j: nat, hashKey: string, f: Finding)
    requires Repeats(w)
    ensures Repeats(Step(l, w, Answers(j, hashKey, f)))
  {
    var scans := w.scans + {Scanned(hashKey, f, w.cache.now)};
    forall k | k in w.cache.url.entries ensures IsScan(scans, w.cache.url.entries[k].finding, w.urlBorn[k]) {
      var hk :| Scanned(hk, w.cache.url.entries[k].finding, w.urlBorn[k]) in w.scans;
      assert Scanned(hk, w.cache.url.entries[k].finding, w.urlBorn[k]) in scans;
    }
  }

  lemma LookUpRepeats(l: Limits, w: World, j: nat, wx: Weather)
    requires !l.hasRedis && Repeats(w) && CanLookUp(w, j)
    ensures Repeats(LookUp(l, w, j, wx))
  {
    var w', job := LookUp(l, w, j, wx), w.jobs[j];
    assert LookupHash(l, w.cache, job.hashKey, wx).1 == MemHit(w.cache.hash, job.hashKey, w.cache.now);
    assert Scanned(job.hashKey, w'.jobs[j].finding, w'.jobs[j].born) in w.scans;
    assert RepeatsSame(w'.cache.hash, w.hashBorn, w.scans);
  }

  lemma StoreMemRepeats(t: Tier, born: map<string, int>, scans: set<Scanned>, key: string, f: Finding, ttl: int, max: int,
                        now: int, time: int)
    ensures var t' := StoreMem(t, key, f, ttl, max, now);
      && (RepeatsSame(t, born, scans) && Scanned(key, f, time) in scans ==>
            RepeatsSame(t', Birth(born, t, t', key, time), scans))
      && (RepeatsSome(t, born, scans) && IsScan(scans, f, time) ==>
            RepeatsSome(t', Birth(born, t, t', key, time), scans))
  {
  }

  lemma StoreRepeats(l: Limits, w: World, j: nat, urlKey: string, wx: Weather)
    requires !l.hasRedis && Repeats(w) && CanStore(w, j)
    ensures Repeats(StoreJob(l, w, j, urlKey, wx))
  {
    var job, w' := w.jobs[j], StoreJob(l, w, j, urlKey, wx);
    assert IsScan(w.scans, job.finding, job.born);
    StoreMemRepeats(w.cache.hash, w.hashBorn, w.scans, job.hashKey, job.finding, l.hashTTL, l.maxEntries, w.cache.now, job.born);
    StoreMemRepeats(w.cache.url, w.urlBorn, w.scans, urlKey, job.finding, l.urlTTL, l.maxEntries, w.cache.now, job.born);
    assert RepeatsSame(w'.cache.hash, w'.hashBorn, w.scans) && RepeatsSome(w'.cache.url, w'.urlBorn, w.scans);
  }

  lemma OtherRepeats(l: Limits, w: World, op: OtherOp)
    requires !l.hasRedis && Repeats(w)
    ensures Repeats(Step(l, w, Other(op)))
  {
    var w' := Step(l, w, Other(op));
    assert forall k :: k in w'.cache.hash.entries ==> k in w.cache.hash.entries && w'.cache.hash.entries[k] == w.cache.hash.entries[k];
    assert forall k :: k in w'.cache.url.entries ==> k in w.cache.url.entries && w'.cache.url.entries[k] == w.cache.url.entries[k];
  }

  lemma StepRepeats(l: Limits, w: World, e: Event)
    requires !l.hasRedis && Repeats(w)
    ensures Repeats(Step(l, w, e))
  {
    match e
    case Answers(j, hashKey, f) => AnswersRepeats(l, w, j, hashKey, f);
    case LooksUp(j, wx) => if CanLookUp(w, j) { LookUpRepeats(l, w, j, wx); }
    case Stores(j, urlKey, wx) => if CanStore(w, j) { StoreRepeats(l, w, j, urlKey, wx); }
    case Other(op) => OtherRepeats(l, w, op);
  }

  lemma {:induction false} StepsRepeat(l: Limits, w: World, es: seq<Event>)
    requires !l.hasRedis && Repeats(w)
    ensures Repeats(Steps(l, w, es))
    decreases |es|
  {
    if es != [] {
      StepRepeats(l, w, es[0]);
      StepsRepeat(l, Step(l, w, es[0]), es[1..]);
    }
  }

  // The exact bound on the age of what is served

  /** The event makes a URL entry, one that can be hit. */
  predicate MakesUrl(l: Limits, w: World, e: Event) {
    && e.Stores? && CanStore(w, e.job) && Cacheable(w.jobs[e.job].finding.status)
    && l.urlTTL > 0 && w.cache.url.count < l.maxEntries && e.urlKey !in w.cache.url.entries
  }

  /** The event makes a hash entry, one that can be hit. */
  predicate MakesHash(l: Limits, w: World, e: Event) {
    && e.Stores? && CanStore(w, e.job) && Cacheable(w.jobs[e.job].finding.status)
    && l.hashTTL > 0 && w.cache.hash.count < l.maxEntries && w.jobs[e.job].hashKey !in w.cache.hash.entries
  }

  /** Whenever an entry is made, the scan it repeats is at most so old: u for URL entries, h for hash entries. */
  predicate Lags(l: Limits, w: World, es: seq<Event>, u: int, h: int)
    decreases |es|
  {
    es == [] ||
    (&& (MakesUrl(l, w, es[0]) ==> w.cache.now - w.jobs[es[0].job].born <= u)
     && (MakesHash(l, w, es[0]) ==> w.cache.now - w.jobs[es[0].job].born <= h)
     && Lags(l, Step(l, w, es[0]), es[1..], u, h))
  }

  /** From now on, as long as no event happens, what memory serves repeats a scan not older than so. */
  ghost predicate ServesWithin(t: Tier, born: map<string, int>, now: int, age: int) {
    forall key, later :: now <= later && MemHit(t, key, later).Some? ==> key in born && later < born[key] + age
  }

  ghost predicate HitsWithin(l: Limits, w: World, u: int, h: int) {
    && ServesWithin(w.cache.url, w.urlBorn, w.cache.now, l.urlTTL + u)
    && ServesWithin(w.cache.hash, w.hashBorn, w.cache.now, l.hashTTL + h)
  }

  ghost predicate AlwaysWithin(l: Limits, w: World, es: seq<Event>, u: int, h: int)
    decreases |es|
  {
    HitsWithin(l, w, u, h) && (es == [] || AlwaysWithin(l, Step(l, w, es[0]), es[1..], u, h))
  }

  /** What storing in memory does to the bound: it holds afterwards if and only if the entry made, if one is
      made that can be hit, repeats a scan not older than the bound less the time to live. */
  lemma StoreMemWithinIff(t: Tier, born: map<string, int>, key: string, f: Finding, ttl: int, max: int, now: int, time: int, lag: int)
    requires ServesWithin(t, born, now, ttl + lag)
    ensures var t' := StoreMem(t, key, f, ttl, max, now);
      ServesWithin(t', Birth(born, t, t', key, time), now, ttl + lag) <==>
        (ttl > 0 && t.count < max && key !in t.entries ==> now - time <= lag)
  {
    var t' := StoreMem(t, key, f, ttl, max, now);
    var born' := Birth(born, t, t', key, time);
    assert forall k, later :: k != key || key in t.entries ==> MemHit(t', k, later) == MemHit(t, k, later);
    if t.count < max && key !in t.entries {
      assert MemHit(t', key, now + ttl - 1).Some?;
      if now - time <= lag {
        forall k, later | now <= later && MemHit(t', k, later).Some? ensures k in born' && later < born'[k] + ttl + lag {
          assert k != key ==> MemHit(t, k, later).Some?;
        }
      }
    }
  }

  lemma FewerWithin(t: Tier, t': Tier, born: map<string, int>, now: int, now': int, age: int)
    requires ServesWithin(t, born, now, age) && now <= now'
    requires forall k :: k in t'.entries ==> k in t.entries && t'.entries[k] == t.entries[k]
    ensures ServesWithin(t', born, now', age)
  {
    forall k, later | now' <= later && MemHit(t', k, later).Some? ensures k in born && later < born[k] + age {
      assert MemHit(t, k, later).Some?;
    }
  }

  lemma StoreWithinIff(l: Limits, w: World, e: Event, u: int, h: int)
    requires !l.hasRedis && HitsWithin(l, w, u, h) && e.Stores? && CanStore(w, e.job)
    ensures HitsWithin(l, Step(l, w, e), u, h) <==>
      && (MakesUrl(l, w, e) ==> w.cache.now - w.jobs[e.job].born <= u)
      && (MakesHash(l, w, e) ==> w.cache.now - w.jobs[e.job].born <= h)
  {
    var job := w.jobs[e.job];
    StoreMemWithinIff(w.cache.url, w.urlBorn, e.urlKey, job.finding, l.urlTTL, l.maxEntries, w.cache.now, job.born, u);
    StoreMemWithinIff(w.cache.hash, w.hashBorn, job.hashKey, job.finding, l.hashTTL, l.maxEntries, w.cache.now, job.born, h);
  }

  lemma OtherWithin(l: Limits, w: World, e: Event, u: int, h: int)
    requires !l.hasRedis && HitsWithin(l, w, u, h) && !(e.Stores? && CanStore(w, e.job))
    ensures HitsWithin(l, Step(l, w, e), u, h)
  {
    var w' := Step(l, w, e);
    FewerWithin(w.cache.url, w'.cache.url, w.urlBorn, w.cache.now, w'.cache.now, l.urlTTL + u);
    FewerWithin(w.cache.hash, w'.cache.hash, w.hashBorn, w.cache.now, w'.cache.now, l.hashTTL + h);
  }

  /** Without Redis, the age of what is served stays within the time to live and a given lag, at every moment
      of a run, if and only if no entry is made from a scan older than that lag. */
  lemma {:induction false} AgeIsLagIff(l: Limits, w: World, es: seq<Event>, u: int, h: int)
    requires !l.hasRedis && HitsWithin(l, w, u, h)
    ensures AlwaysWithin(l, w, es, u, h) <==> Lags(l, w, es, u, h)
    decreases |es|
  {
    if es != [] {
      if es[0].Stores? && CanStore(w, es[0].job) {
        StoreWithinIff(l, w, es[0], u, h);
      } else {
        OtherWithin(l, w, es[0], u, h);
      }
      if HitsWithin(l, Step(l, w, es[0]), u, h) {
        AgeIsLagIff(l, Step(l, w, es[0]), es[1..], u, h);
      } else {
        NotWithin(l, Step(l, w, es[0]), es[1..], u, h);
      }
    }
  }

  lemma NotWithin(l: Limits, w: World, es: seq<Event>, u: int, h: int)
    requires !HitsWithin(l, w, u, h)
    ensures !AlwaysWithin(l, w, es, u, h)
  {
  }

  // When jobs are prompt

  /** A job stores its own scanner's answer soon enough, and a finding it took from the hash tier before the
      entry it was taken from expires. */
  predicate Prompt(w: World, e: Event, gap: nat) {
    e.Stores? && CanStore(w, e.job) ==>
      var job := w.jobs[e.job];
      if job.due.None? then w.cache.now - job.born <= gap else w.cache.now < job.due.value
  }

  predicate AllPrompt(l: Limits, w: World, es: seq<Event>, gap: nat)
    decreases |es|
  {
    es == [] || (Prompt(w, es[0], gap) && AllPrompt(l, Step(l, w, es[0]), es[1..], gap))
  }

  /** Hash entries repeat scans made at most the gap before them, and until it expires the entry that a
      pending finding was taken from is there. */
  predicate FirstHand(l: Limits, w: World, gap: nat) {
    && (forall k :: k in w.cache.hash.entries ==>
          k in w.hashBorn && w.cache.hash.entries[k].expiresAt <= w.hashBorn[k] + l.hashTTL + gap)
    && (forall j :: j in w.jobs && w.jobs[j].due.Some? ==>
          && w.jobs[j].due.value <= w.jobs[j].born + l.hashTTL + gap
          && (w.cache.now < w.jobs[j].due.value ==>
                w.jobs[j].hashKey in w.cache.hash.entries && w.cache.hash.entries[w.jobs[j].hashKey].expiresAt == w.jobs[j].due.value))
  }

  function UrlLag(l: Limits, gap: nat): int {
    gap + if l.hashTTL > 0 then l.hashTTL else 0
  }

  lemma PromptStoreLags(l: Limits, w: World, e: Event, gap: nat)
    requires !l.hasRedis && FirstHand(l, w, gap) && Prompt(w, e, gap)
    ensures MakesUrl(l, w, e) ==> w.cache.now - w.jobs[e.job].born <= UrlLag(l, gap)
    ensures MakesHash(l, w, e) ==> w.cache.now - w.jobs[e.job].born <= gap
  {
  }

  lemma LookUpFirstHand(l: Limits, w: World, j: nat, wx: Weather, gap: nat)
    requires !l.hasRedis && FirstHand(l, w, gap) && CanLookUp(w, j)
    ensures FirstHand(l, LookUp(l, w, j, wx), gap)
  {
  }

  lemma StoreFirstHand(l: Limits, w: World, e: Event, gap: nat)
    requires !l.hasRedis && FirstHand(l, w, gap) && Prompt(w, e, gap) && e.Stores? && CanStore(w, e.job)
    ensures FirstHand(l, Step(l, w, e), gap)
  {
  }

  lemma OtherFirstHand(l: Limits, w: World, op: OtherOp, gap: nat)
    requires !l.hasRedis && FirstHand(l, w, gap)
    ensures FirstHand(l, Step(l, w, Other(op)), gap)
  {
  }

  lemma StepFirstHand(l: Limits, w: World, e: Event, gap: nat)
    requires !l.hasRedis && FirstHand(l, w, gap) && Prompt(w, e, gap)
    ensures FirstHand(l, Step(l, w, e), gap)
  {
    match e
    case Answers(_, _, _) =>
    case LooksUp(j, wx) => if CanLookUp(w, j) { LookUpFirstHand(l, w, j, wx, gap); }
    case Stores(j, _, _) => if CanStore(w, j) { StoreFirstHand(l, w, e, gap); }
    case Other(op) => OtherFirstHand(l, w, op, gap);
  }

  lemma {:induction false} PromptLags(l: Limits, w: World, es: seq<Event>, gap: nat)
    requires !l.hasRedis && FirstHand(l, w, gap) && AllPrompt(l, w, es, gap)
    ensures Lags(l, w, es, UrlLag(l, gap), gap)
    decreases |es|
  {
    if es != [] {
      PromptStoreLags(l, w, es[0], gap);
      StepFirstHand(l, w, es[0], gap);
      PromptLags(l, Step(l, w, es[0]), es[1..], gap);
    }
  }

  lemma {:induction false} FinallyWithin(l: Limits, w: World, es: seq<Event>, u: int, h: int)
    requires AlwaysWithin(l, w, es, u, h)
    ensures HitsWithin(l, Steps(l, w, es), u, h)
    decreases |es|
  {
    if es != [] {
      FinallyWithin(l, Step(l, w, es[0]), es[1..], u, h);
    }
  }

  /** Without Redis, after every run of any jobs: a hit repeats a scan, in the hash tier one of the same
      content. If the jobs were prompt, a URL hit's scan is less than both times to live together old, and a
      hash hit's less than its own, each with the gap between scan and store added. */
  lemma HitsRepeatRecentScans(l: Limits, start: int, es: seq<Event>, gap: nat, key: string, wx: Weather)
    requires !l.hasRedis
    ensures var w := Steps(l, Begin(start), es);
      var hit := LookupURL(l, w.cache, key, wx).1;
      hit.Some? ==>
        && key in w.urlBorn && IsScan(w.scans, hit.value, w.urlBorn[key])
        && w.urlBorn[key] <= w.cache.now
        && (AllPrompt(l, Begin(start), es, gap) ==> w.cache.now < w.urlBorn[key] + l.urlTTL + UrlLag(l, gap))
    ensures var w := Steps(l, Begin(start), es);
      var hit := LookupHash(l, w.cache, key, wx).1;
      hit.Some? ==>
        && key in w.hashBorn && Scanned(key, hit.value, w.hashBorn[key]) in w.scans
        && w.hashBorn[key] <= w.cache.now
        && (AllPrompt(l, Begin(start), es, gap) ==> w.cache.now < w.hashBorn[key] + l.hashTTL + gap)
  {
    var w := Steps(l, Begin(start), es);
    StepsRepeat(l, Begin(start), es);
    if AllPrompt(l, Begin(start), es, gap) {
      PromptLags(l, Begin(start), es, gap);
      AgeIsLagIff(l, Begin(start), es, UrlLag(l, gap), gap);
      FinallyWithin(l, Begin(start), es, UrlLag(l, gap), gap);
      assert MemHit(w.cache.url, key, w.cache.now) == LookupURL(l, w.cache, key, wx).1;
      assert MemHit(w.cache.hash, key, w.cache.now) == LookupHash(l, w.cache, key, wx).1;
    }
  }

  // When they are not

  const CLEAN := Finding(Clean, "")

  lemma {:induction false} StepsSplit(l: Limits, w: World, a: seq<Event>, b: seq<Event>)
    ensures Steps(l, w, a + b) == Steps(l, Steps(l, w, a), b)
    decreases |a|
  {
    if a == [] {
      assert a + b == b;
    } else {
      assert (a + b)[1..] == a[1..] + b;
      StepsSplit(l, Step(l, w, a[0]), a[1..], b);
    }
  }

  lemma TwoSteps(l: Limits, w: World, es: seq<Event>)
    requires |es| == 2
    ensures Steps(l, w, es) == Step(l, Step(l, w, es[0]), es[1])
  {
    assert es[1..] == [es[1]] && [es[1]][1..] == [];
    assert Steps(l, Step(l, w, es[0]), [es[1]]) == Step(l, Step(l, w, es[0]), es[1]);
  }

  lemma FourSteps(l: Limits, w: World, es: seq<Event>)
    requires |es| == 4
    ensures Steps(l, w, es) == Step(l, Step(l, Step(l, Step(l, w, es[0]), es[1]), es[2]), es[3])
  {
    assert es == es[..2] + es[2..];
    StepsSplit(l, w, es[..2], es[2..]);
    TwoSteps(l, w, es[..2]);
    TwoSteps(l, Steps(l, w, es[..2]), es[2..]);
  }

  lemma SixSteps(l: Limits, w: World, es: seq<Event>)
    requires |es| == 6
    ensures Steps(l, w, es) ==
      Step(l, Step(l, Step(l, Step(l, Step(l, Step(l, w, es[0]), es[1]), es[2]), es[3]), es[4]), es[5])
  {
    assert es == es[..4] + es[4..];
    StepsSplit(l, w, es[..4], es[4..]);
    FourSteps(l, w, es[..4]);
    TwoSteps(l, Steps(l, w, es[..4]), es[4..]);
  }

  /** The first scan of the content, by a job that looks up and stores without delay. */
  function Scan(f: Finding, wx: Weather): seq<Event> {
    [Answers(0, "h", f), LooksUp(0, wx), Stores(0, "u", wx)]
  }

  lemma ScanSteps(l: Limits, w: World, f: Finding, wx: Weather)
    ensures Steps(l, w, Scan(f, wx)) == Step(l, Step(l, Step(l, w, Answers(0, "h", f)), LooksUp(0, wx)), Stores(0, "u", wx))
  {
    var es := Scan(f, wx);
    assert es[1..] == [es[1], es[2]];
    TwoSteps(l, Step(l, w, es[0]), es[1..]);
  }

  /** Without Redis, but late: a job takes an infected finding from the hash tier one tick before the entry
      expires, and stores it two ticks later. */
  function LateStore(l: Limits, wx: Weather): seq<Event>
    requires l.urlTTL > 0 && l.hashTTL > 0
  {
    [Other(Tick(l.hashTTL - 1)), Answers(1, "h", CLEAN), LooksUp(1, wx), Other(Tick(2)), Stores(1, "v", wx),
     Other(Tick(l.urlTTL - 1))]
  }

  lemma FirstScan(l: Limits, start: int, f: Finding, wx: Weather)
    requires l.maxEntries > 0 && f.status == Infected && !l.hasRedis
    ensures Steps(l, Begin(start), Scan(f, wx)) ==
      World(CacheState(Tier(map["u" := CacheEntry(f, start + l.urlTTL)], 1, map[]),
                       Tier(map["h" := CacheEntry(f, start + l.hashTTL)], 1, map[]),
                       {Stored("u", f, start)}, {Stored("h", f, start)}, start),
            map[], map["u" := start], map["h" := start], {Scanned("h", f, start)})
  {
    ScanSteps(l, Begin(start), f, wx);
    var w1 := Step(l, Begin(start), Answers(0, "h", f));
    var w2 := Step(l, w1, LooksUp(0, wx));
    assert w2.jobs == map[0 := Job("h", f, start, None, true)];
    assert w2.cache == Start(start);
  }

  /** The bound for prompt jobs is not a bound for all: the only infected scan was made at the start, and the
      URL tier serves it when both times to live have passed. */
  lemma LateStoreOutlivesBound(l: Limits, start: int, f: Finding, wx: Weather)
    requires !l.hasRedis && l.urlTTL > 0 && l.hashTTL > 0 && l.maxEntries > 1 && f.status == Infected
    ensures var w := Steps(l, Begin(start), Scan(f, wx) + LateStore(l, wx));
      && LookupURL(l, w.cache, "v", wx).1 == Some(f)
      && w.scans == {Scanned("h", f, start), Scanned("h", CLEAN, start + l.hashTTL - 1)}
      && w.cache.now == start + l.urlTTL + l.hashTTL
  {
    FirstScan(l, start, f, wx);
    var es, w := LateStore(l, wx), Steps(l, Begin(start), Scan(f, wx));
    var w2 := Step(l, Step(l, w, es[0]), es[1]);
    var w3 := Step(l, w2, es[2]);
    assert w3.jobs[1] == Job("h", f, start, Some(start + l.hashTTL), true);
    var w5 := Step(l, Step(l, w3, es[3]), es[4]);
    assert w5.cache.url.entries["v"] == CacheEntry(f, start + l.hashTTL + 1 + l.urlTTL);
    StepsSplit(l, Begin(start), Scan(f, wx), es);
    SixSteps(l, w, es);
  }

  // An infected verdict that lives for ever

  /** One round of the same content being scanned again, clean this time, while its entry is there: the job
      finds the entry, the entry expires, another job's lookup drops it, and the job stores what it found. */
  function LateRound(l: Limits, wx: Weather): seq<Event>
    requires l.hashTTL > 0
  {
    [Other(Tick(l.hashTTL - 1)), Answers(1, "h", CLEAN), LooksUp(1, wx), Other(Tick(1)), Other(GetByHash("h", wx)),
     Stores(1, "u", wx)]
  }

  /** The same with Redis, where nothing need be late: the job's store renews the key. */
  function PromptRound(l: Limits, wx: Weather): seq<Event>
    requires l.hashTTL > 0
  {
    [Other(Tick(l.hashTTL - 1)), Answers(1, "h", CLEAN), LooksUp(1, wx), Stores(1, "u", wx)]
  }

  function Rounds(round: seq<Event>, n: nat): seq<Event> {
    if n == 0 then [] else round + Rounds(round, n - 1)
  }

  /** The only scan that was not clean is the one at the start. */
  predicate OnlyFirstInfected(w: World, f: Finding, start: int) {
    forall d :: d in w.scans ==> d == Scanned("h", f, start) || d.finding == CLEAN
  }

  /** In memory, the entry of the first finding was just stored. */
  predicate JustStored(l: Limits, w: World, f: Finding) {
    && "h" in w.cache.hash.entries && w.cache.hash.entries["h"] == CacheEntry(f, w.cache.now + l.hashTTL)
    && w.cache.hash.count <= l.maxEntries
  }

  lemma LateRoundKeeps(l: Limits, w: World, f: Finding, start: int, wx: Weather)
    requires !l.hasRedis && l.hashTTL > 0 && f.status == Infected
    requires JustStored(l, w, f) && OnlyFirstInfected(w, f, start)
    ensures var t := Steps(l, w, LateRound(l, wx));
      JustStored(l, t, f) && OnlyFirstInfected(t, f, start) && t.cache.now == w.cache.now + l.hashTTL
  {
    var es := LateRound(l, wx);
    var w1 := Step(l, w, es[0]);
    var w2 := Step(l, w1, es[1]);
    var w3 := Step(l, w2, es[2]);
    assert w3.jobs[1].finding == f && w3.jobs[1].hashKey == "h" && w3.jobs[1].merged;
    var w4 := Step(l, w3, es[3]);
    var w5 := Step(l, w4, es[4]);
    assert "h" !in w5.cache.hash.entries && w5.cache.hash.count < l.maxEntries;
    SixSteps(l, w, es);
  }

  lemma {:induction false} LateRoundsKeep(l: Limits, w: World, f: Finding, start: int, wx: Weather, n: nat)
    requires !l.hasRedis && l.hashTTL > 0 && f.status == Infected
    requires JustStored(l, w, f) && OnlyFirstInfected(w, f, start)
    ensures var t := Steps(l, w, Rounds(LateRound(l, wx), n));
      JustStored(l, t, f) && OnlyFirstInfected(t, f, start) && t.cache.now == w.cache.now + n * l.hashTTL
    decreases n
  {
    if n > 0 {
      LateRoundKeeps(l, w, f, start, wx);
      StepsSplit(l, w, LateRound(l, wx), Rounds(LateRound(l, wx), n - 1));
      LateRoundsKeep(l, Steps(l, w, LateRound(l, wx)), f, start, wx, n - 1);
    }
  }

  /** Without Redis and with late jobs there is no bound in the hash tier: after any number of rounds it still
      serves the one infected scan, although every later one was clean. */
  lemma LateJobsKeepInfectedAlive(l: Limits, start: int, f: Finding, wx: Weather, n: nat)
    requires !l.hasRedis && l.hashTTL > 0 && l.maxEntries > 0 && f.status == Infected
    ensures var w := Steps(l, Begin(start), Scan(f, wx) + Rounds(LateRound(l, wx), n));
      && LookupHash(l, w.cache, "h", wx).1 == Some(f) && OnlyFirstInfected(w, f, start)
      && w.cache.now == start + n * l.hashTTL
  {
    FirstScan(l, start, f, wx);
    StepsSplit(l, Begin(start), Scan(f, wx), Rounds(LateRound(l, wx), n));
    LateRoundsKeep(l, Steps(l, Begin(start), Scan(f, wx)), f, start, wx, n);
  }

  /** In Redis, the key of the first finding was just set; memory has that finding or none. */
  predicate JustRenewed(l: Limits, w: World, f: Finding) {
    && "h" in w.cache.hash.redis && w.cache.hash.redis["h"] == RedisEntry(f, Some(w.cache.now + l.hashTTL))
    && ("h" in w.cache.hash.entries ==> w.cache.hash.entries["h"].finding == f)
  }

  lemma PromptRoundKeeps(l: Limits, w: World, f: Finding, start: int, wx: Weather)
    requires l.hasRedis && l.hashTTL > 0 && wx.get && wx.setHash && f.status == Infected
    requires JustRenewed(l, w, f) && OnlyFirstInfected(w, f, start)
    ensures var t := Steps(l, w, PromptRound(l, wx));
      JustRenewed(l, t, f) && OnlyFirstInfected(t, f, start) && t.cache.now == w.cache.now + l.hashTTL - 1
  {
    var es := PromptRound(l, wx);
    var w1 := Step(l, w, es[0]);
    var w2 := Step(l, w1, es[1]);
    assert LookupHash(l, w2.cache, "h", wx).1 == Some(f);
    var w3 := Step(l, w2, es[2]);
    assert w3.jobs[1].finding == f && w3.jobs[1].hashKey == "h" && w3.jobs[1].merged;
    FourSteps(l, w, es);
  }

  lemma {:induction false} PromptRoundsKeep(l: Limits, w: World, f: Finding, start: int, wx: Weather, n: nat)
    requires l.hasRedis && l.hashTTL > 0 && wx.get && wx.setHash && f.status == Infected
    requires JustRenewed(l, w, f) && OnlyFirstInfected(w, f, start)
    ensures var t := Steps(l, w, Rounds(PromptRound(l, wx), n));
      JustRenewed(l, t, f) && OnlyFirstInfected(t, f, start) && t.cache.now == w.cache.now + n * (l.hashTTL - 1)
    decreases n
  {
    if n > 0 {
      PromptRoundKeeps(l, w, f, start, wx);
      StepsSplit(l, w, PromptRound(l, wx), Rounds(PromptRound(l, wx), n - 1));
      PromptRoundsKeep(l, Steps(l, w, PromptRound(l, wx)), f, start, wx, n - 1);
    }
  }

  lemma FirstScanSets(l: Limits, start: int, f: Finding, wx: Weather)
    requires l.hasRedis && l.hashTTL > 0 && wx.setHash && f.status == Infected
    ensures var w := Steps(l, Begin(start), Scan(f, wx));
      JustRenewed(l, w, f) && OnlyFirstInfected(w, f, start) && w.cache.now == start
  {
    ScanSteps(l, Begin(start), f, wx);
    var w1 := Step(l, Begin(start), Answers(0, "h", f));
    var w2 := Step(l, w1, LooksUp(0, wx));
    assert w2.jobs == map[0 := Job("h", f, start, None, true)];
  }

  /** With Redis there is no bound even for prompt jobs: after any number of rounds the hash tier still serves
      the one infected scan, although every later one was clean. */
  lemma RedisKeepsInfectedAlive(l: Limits, start: int, f: Finding, wx: Weather, n: nat)
    requires l.hasRedis && l.hashTTL > 0 && wx.get && wx.setHash && f.status == Infected
    ensures var w := Steps(l, Begin(start), Scan(f, wx) + Rounds(PromptRound(l, wx), n));
      && LookupHash(l, w.cache, "h", wx).1 == Some(f) && OnlyFirstInfected(w, f, start)
      && w.cache.now == start + n * (l.hashTTL - 1)
  {
    FirstScanSets(l, start, f, wx);
    StepsSplit(l, Begin(start), Scan(f, wx), Rounds(PromptRound(l, wx), n));
    PromptRoundsKeep(l, Steps(l, Begin(start), Scan(f, wx)), f, start, wx, n);
  }
}
