/** A scan job whose hash lookup is answered by the result cache: what becomes of content that the cache
    knows to be infected. The hash is any function from contents to keys. */
module InfectedContent {
  import opened Verdicts
  import P = TrickleProtocol
  import opened TrickleInvariant
  import opened TrickleSafety
  import opened TrickleOutcome
  import opened ResultCache
  import C = ResultCacheRuns
  import opened TrickleExamples

  /** Every hash lookup of the run gets the answer that the cache gives for the hash of what the hash
      accumulator has seen at that moment. */
  predicate AnsweredBy(c: P.Config, acts: seq<P.Action>, l: Limits, s: C.CacheState, w: Weather, hash: seq<Byte> -> string) {
    forall i :: 0 <= i < |acts| && acts[i].Writer? && acts[i].w.HashAnswer? && Runs(c, acts[..i]) ==>
      acts[i].w.hit == C.LookupHash(l, s, hash(After(c, acts[..i]).hashed), w).1
  }

  lemma PrefixRuns(c: P.Config, acts: seq<P.Action>, i: nat)
    requires Runs(c, acts) && i < |acts|
    ensures Runs(c, acts[..i]) && P.Enabled(c, After(c, acts[..i]), acts[i])
  {
    assert acts == acts[..i] + acts[i..];
    P.RunSplit(c, P.Init(), acts[..i], acts[i..]);
  }

  /** The key that is looked up is the hash of the whole body. */
  lemma LooksUpBody(c: P.Config, acts: seq<P.Action>, i: nat)
    requires Runs(c, acts) && i < |acts| && acts[i].Writer? && acts[i].w.HashAnswer?
    ensures Runs(c, acts[..i]) && After(c, acts[..i]).hashed == c.body
  {
    PrefixRuns(c, acts, i);
    ReachableInv(c, acts[..i]);
  }

  /** While the hash tier holds an infected entry for the hash of the body, whatever happened to the cache
      since and whatever the URL tier and the scanner say: the job ends infected if and only if its file was
      opened, its body is within the limit and its scan did not fail. Otherwise the client is let through. */
  lemma KnownInfectedJob(l: Limits, s: C.CacheState, ops: seq<C.Op>, e: CacheEntry, w: Weather,
                         c: P.Config, acts: seq<P.Action>, hash: seq<Byte> -> string)
    requires C.HoldsInfected(s, hash(c.body), e) && C.Run(l, s, ops).now < e.expiresAt
    requires Runs(c, acts) && Terminal(After(c, acts).status)
    requires AnsweredBy(c, acts, l, C.Run(l, s, ops), w, hash)
    ensures After(c, acts).status == Infected <==> Passes(c, Heard(acts))
    ensures After(c, acts).sent.Some? ==> (After(c, acts).sent.value.clean <==> !Passes(c, Heard(acts)))
  {
    C.InfectedStaysOverRuns(l, s, ops, hash(c.body), e);
    forall a | a in acts && a.Writer? && a.w.HashAnswer? ensures a.w.hit == Some(e.finding) {
      var i :| 0 <= i < |acts| && acts[i] == a;
      LooksUpBody(c, acts, i);
    }
    InfectedIfAsked(c, acts);
  }

  /** The other half is real for every body within the limit: although the cache holds a live infected entry
      for it, a job whose scan fails ends in error, and its client gets the whole body. */
  lemma KnownInfectedIsDelivered(l: Limits, s: C.CacheState, e: CacheEntry, w: Weather,
                                 c: P.Config, hash: seq<Byte> -> string)
    returns (acts: seq<P.Action>)
    requires C.HoldsInfected(s, hash(c.body), e) && s.now < e.expiresAt && Fits(c)
    ensures Runs(c, acts) && AnsweredBy(c, acts, l, s, w, hash)
    ensures After(c, acts).status == Error && After(c, acts).delivered == c.body
    ensures After(c, acts).last.Got? && After(c, acts).last.eof
  {
    acts := ScannerDownDeliversAnything(c);
    forall i | 0 <= i < |acts| && acts[i].Writer? ensures !acts[i].w.HashAnswer? {
      assert acts[i] in acts;
    }
  }
}
