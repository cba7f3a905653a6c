/** What every run of the scan/trickle protocol keeps and what it ends with. */
module TrickleSafety {
  import opened Verdicts
  import opened Text
  import opened TrickleProtocol
  import opened TrickleInvariant

  predicate Runs(c: Config, acts: seq<Action>) {
    IsRun(c, Init(), acts)
  }

  function After(c: Config, acts: seq<Action>): State
    requires Runs(c, acts)
  {
    Exec(c, Init(), acts)
  }

  lemma ReachableInv(c: Config, acts: seq<Action>)
    requires Runs(c, acts)
    ensures Inv(c, After(c, acts))
  {
    InitEstablishes(c);
    RunKeepsInv(c, Init(), acts);
  }

  /** The bytes that are in neither the temp file nor the client's hands through the tail. */
  function Unread(c: Config, s: State): seq<Byte>
    requires s.pos <= |c.body|
  {
    (if s.wpc.WriteFile? then s.chunk else []) + c.body[s.pos..]
  }

  lemma DropNothing(a: seq<Byte>, b: seq<Byte>)
    ensures a + b[|b|..] == a
  {
  }

  /** A file and the tail delivered after it, when both are prefixes of the body. */
  lemma FileThenTail(body: seq<Byte>, file: seq<Byte>, delivered: seq<Byte>)
    requires |file| <= |delivered| <= |body| && file == body[..|file|] && delivered == body[..|delivered|]
    ensures file + delivered[|file|..] == delivered
  {
  }

  /** The temp file, then what the client took past it, is the part of the body consumed so far,
      short of the chunk in flight. */
  lemma ConsumedIsPrefix(c: Config, s: State)
    requires Inv(c, s) && !s.rest.Discarded? && !s.wpc.WriteFile?
    ensures s.readPos <= |s.delivered| && s.pos <= |c.body|
    ensures s.file + s.delivered[s.readPos..] == c.body[..s.pos]
  {
    if TailTaken(s) > 0 {
      assert s.readPos == |s.file| && |s.delivered| == s.pos;
      FileThenTail(c.body, s.file, s.delivered);
    } else {
      assert s.readPos == |s.delivered| && |s.file| == s.pos;
      DropNothing(s.file, s.delivered);
    }
  }

  lemma ChunkInHand(c: Config, s: State)
    requires Inv(c, s) && s.wpc.WriteFile?
    ensures |s.file| <= s.pos <= |c.body| && s.file == c.body[..|s.file|] && s.chunk == c.body[|s.file|..s.pos]
    ensures s.readPos == |s.delivered|
  {
    assert s.rest.Kept?;
  }

  lemma ChunkCompletesPrefix(c: Config, s: State)
    requires Inv(c, s) && s.wpc.WriteFile?
    ensures s.readPos <= |s.delivered| && s.pos <= |c.body|
    ensures s.file + s.delivered[s.readPos..] + s.chunk == c.body[..s.pos]
  {
    ChunkInHand(c, s);
    DropNothing(s.file, s.delivered);
    ExtendPrefix(c.body, |s.file|, s.pos);
  }

  lemma PrefixAndRest(body: seq<Byte>, i: nat)
    requires i <= |body|
    ensures body[..i] + body[i..] == body
  {
  }

  /** What has been consumed, with the chunk in flight, and what is unread make up the body. */
  lemma ConsumedAndUnread(c: Config, s: State)
    requires Inv(c, s) && !s.rest.Discarded?
    ensures s.readPos <= |s.delivered| && s.pos <= |c.body|
    ensures s.file + s.delivered[s.readPos..] + Unread(c, s) == c.body
  {
    if s.wpc.WriteFile? {
      ChunkCompletesPrefix(c, s);
      Associate(s.file + s.delivered[s.readPos..], s.chunk, c.body[s.pos..]);
    } else {
      ConsumedIsPrefix(c, s);
      NothingBefore(c.body[s.pos..]);
    }
    PrefixAndRest(c.body, s.pos);
  }

  lemma NothingBefore(rest: seq<Byte>)
    ensures [] + rest == rest
  {
  }

  lemma SamePrefix(body: seq<Byte>, a: seq<Byte>, b: seq<Byte>, n: nat)
    requires n <= |a| <= |body| && n <= |b| <= |body| && a == body[..|a|] && b == body[..|b|]
    ensures a[..n] == b[..n] && a <= body && b <= body
  {
  }

  lemma Bounds(c: Config, s: State)
    requires Inv(c, s)
    ensures s.readPos <= s.written <= |s.file| <= |c.body| && s.pos <= |c.body|
    ensures s.readPos <= |s.delivered| <= |c.body|
    ensures s.file == c.body[..|s.file|] && s.delivered == c.body[..|s.delivered|]
  {
    assert Bytes(c, s) && ChunkInFlight(c, s) && Delivery(c, s);
  }

  /** Conservation: at every moment, what is in the temp file, what the client took from the tail and
      what is still to come make up the upstream body; and the client holds a prefix of it. */
  lemma BytesAreConserved(c: Config, acts: seq<Action>)
    requires Runs(c, acts)
    ensures var s := After(c, acts);
      && s.readPos <= s.written <= |s.file| && s.pos <= |c.body| && s.readPos <= |s.delivered|
      && s.delivered <= c.body && s.file <= c.body
      && s.delivered[..s.readPos] == s.file[..s.readPos]
      && (!s.rest.Discarded? ==> s.file + s.delivered[s.readPos..] + Unread(c, s) == c.body)
  {
    var s := After(c, acts);
    ReachableInv(c, acts);
    Bounds(c, s);
    SamePrefix(c.body, s.delivered, s.file, s.readPos);
    if !s.rest.Discarded? {
      ConsumedAndUnread(c, s);
    }
  }

  /** The cases in which bytes are lost: the temp file could not be opened for writing, or the scanner
      failed before it had seen more than the size limit of a body that exceeds it by more than a byte. */
  predicate Truncates(c: Config, s: State) {
    || (!s.openOk && c.body != [])
    || (s.failedAt.Some? && s.failedAt.value <= c.maxSize && |c.body| > Limit(c))
  }

  /** Completeness: a client that was told end of file holds the whole body exactly once, if and only
      if the run is not one of the truncating cases; there it holds what fitted in the temp file. */
  lemma EofMeansComplete(c: Config, acts: seq<Action>)
    requires Runs(c, acts)
    requires After(c, acts).last.Got? && After(c, acts).last.eof
    ensures var s := After(c, acts);
      && (s.delivered == c.body <==> !Truncates(c, s))
      && (Truncates(c, s) ==> s.delivered == c.body[..if s.openOk then Limit(c) else 0])
  {
    ReachableInv(c, acts);
  }

  /** A failed scan is the only way to a truncated body: with a clean or oversize job nothing is lost. */
  lemma OnlyErrorsTruncate(c: Config, acts: seq<Action>)
    requires Runs(c, acts)
    ensures var s := After(c, acts);
      AfterSend(s.wpc) && (s.status == Clean || s.status == TooLarge) ==> !Truncates(c, s)
  {
    ReachableInv(c, acts);
  }

  // Safety of the infected verdict

  lemma {:induction false} AbortIsForever(c: Config, s: State, more: seq<Action>)
    requires Inv(c, s) && s.mode.Aborted? && IsRun(c, s, more)
    ensures var t := Exec(c, s, more);
      t.mode.Aborted? && t.delivered == s.delivered && t.rpc.Idle? && t.last == VirusDetected
    decreases |more|
  {
    if more != [] {
      StepKeepsInv(c, s, more[0]);
      AbortIsForever(c, Apply(c, s, more[0]), more[1..]);
    }
  }

  /** Once the reader has consumed an infected verdict, no later action of either process delivers
      another byte, and every later Read fails. */
  lemma NoByteAfterInfected(c: Config, acts: seq<Action>, more: seq<Action>)
    requires Runs(c, acts + more)
    ensures Runs(c, acts)
    ensures After(c, acts).mode.Aborted? ==>
      && After(c, acts + more).mode.Aborted?
      && After(c, acts + more).delivered == After(c, acts).delivered
      && After(c, acts + more).last == VirusDetected
  {
    RunSplit(c, Init(), acts, more);
    ReachableInv(c, acts);
    if After(c, acts).mode.Aborted? {
      AbortIsForever(c, After(c, acts), more);
    }
  }

  /** The trickle rate bounds every reader that has not been told the job is clean. */
  lemma TrickleRate(c: Config, acts: seq<Action>)
    requires Runs(c, acts) && !After(c, acts).mode.Flushing?
    ensures |After(c, acts).delivered| * INTERVAL <= After(c, acts).elapsed
  {
    ReachableInv(c, acts);
  }

  /** An infected verdict has been sent. */
  predicate Condemned(s: State) {
    s.sent.Some? && !s.sent.value.clean
  }

  /** The bytes a Read under way may still hand over although the verdict is there: it is past its select,
      or was already waiting in it when the verdict came. */
  function StillComing(s: State): nat {
    if s.mode.Trickling? && (InOne(s.rpc) || (s.rpc.Select? && !s.rpc.ready)) then 1 else 0
  }

  lemma CondemnedStep(c: Config, s: State, a: Action)
    requires Inv(c, s) && Condemned(s) && Enabled(c, s, a)
    ensures var t := Apply(c, s, a);
      Condemned(t) && |t.delivered| + StillComing(t) <= |s.delivered| + StillComing(s)
  {
    match a
    case Writer(w) =>
    case Reader(r) =>
      if r.ReaderStep? {
        assert !InFlush(s.rpc);
      }
  }

  lemma {:induction false} CondemnedRun(c: Config, s: State, more: seq<Action>)
    requires Inv(c, s) && Condemned(s) && IsRun(c, s, more)
    ensures |Exec(c, s, more).delivered| <= |s.delivered| + StillComing(s)
    decreases |more|
  {
    if more != [] {
      CondemnedStep(c, s, more[0]);
      StepKeepsInv(c, s, more[0]);
      CondemnedRun(c, Apply(c, s, more[0]), more[1..]);
    }
  }

  // Job life cycle

  function Stage(s: ScanStatus): nat {
    match s
    case Pending => 0
    case Scanning => 1
    case _ => 2
  }

  /** What one action may do to the job: never step back, never change a final status, a sent verdict
      or, once the status is final, the temp file. */
  predicate Advances(s: State, t: State) {
    && Stage(s.status) <= Stage(t.status)
    && (Terminal(s.status) ==> t.status == s.status && t.file == s.file && t.saved == s.saved)
    && (s.sent.Some? ==> t.sent == s.sent)
    && (s.uploadDone ==> t.uploadDone)
    && s.delivered <= t.delivered
  }

  lemma WriterStepAdvances(c: Config, s: State)
    requires Inv(c, s) && WriterStepReady(s)
    ensures Advances(s, DoWriterStep(c, s))
  {
  }

  lemma WriterAdvances(c: Config, s: State, a: WriterAction)
    requires Inv(c, s) && WriterEnabled(c, s, a)
    ensures Advances(s, ApplyWriter(c, s, a))
  {
    if a.WriterStep? {
      WriterStepAdvances(c, s);
    }
  }

  lemma ReaderAdvances(c: Config, s: State, a: ReaderAction)
    requires Inv(c, s) && ReaderEnabled(c, s, a)
    ensures Advances(s, ApplyReader(c, s, a))
  {
    assert SameForWriter(s, ApplyReader(c, s, a));
    if a.ReaderStep? {
      assert s.delivered <= DoReaderStep(s).delivered;
    }
  }

  lemma StepAdvances(c: Config, s: State, a: Action)
    requires Inv(c, s) && Enabled(c, s, a)
    ensures Advances(s, Apply(c, s, a))
  {
    match a
    case Writer(w) => WriterAdvances(c, s, w);
    case Reader(r) => ReaderAdvances(c, s, r);
  }

  lemma {:induction false} RunAdvances(c: Config, s: State, more: seq<Action>)
    requires Inv(c, s) && IsRun(c, s, more)
    ensures Advances(s, Exec(c, s, more))
    decreases |more|
  {
    if more != [] {
      StepAdvances(c, s, more[0]);
      StepKeepsInv(c, s, more[0]);
      RunAdvances(c, Apply(c, s, more[0]), more[1..]);
    }
  }

  /** Over every run the status only moves forward and a final status, the verdict and the file of a
      finished job never change again. */
  lemma LifecycleIsMonotone(c: Config, acts: seq<Action>, more: seq<Action>)
    requires Runs(c, acts + more)
    ensures Runs(c, acts) && Advances(After(c, acts), After(c, acts + more))
  {
    RunSplit(c, Init(), acts, more);
    ReachableInv(c, acts);
    RunAdvances(c, After(c, acts), more);
  }

  /** A run whose job is, or later turns out, infected has at no moment flushed or reported end of file,
      and has delivered at most one byte for every trickle interval waited. */
  lemma InfectedRunsTrickle(c: Config, acts: seq<Action>, more: seq<Action>)
    requires Runs(c, acts + more) && After(c, acts + more).status == Infected
    ensures Runs(c, acts)
    ensures var s := After(c, acts);
      && !s.mode.Flushing?
      && !(s.last.Got? && s.last.eof)
      && |s.delivered| * INTERVAL <= s.elapsed
  {
    LifecycleIsMonotone(c, acts, more);
    ReachableInv(c, acts);
  }

  /** From the moment an infected verdict is sent, at most one more byte is ever delivered, and that only by
      a Read that was under way: a later Read finds the verdict waiting and acts on it. */
  lemma AtMostOneByteAfterVerdict(c: Config, acts: seq<Action>, more: seq<Action>)
    requires Runs(c, acts + more)
    ensures Runs(c, acts)
    ensures Condemned(After(c, acts)) ==>
      && |After(c, acts + more).delivered| <= |After(c, acts).delivered| + 1
      && (After(c, acts).rpc.Idle? ==> After(c, acts + more).delivered == After(c, acts).delivered)
  {
    RunSplit(c, Init(), acts, more);
    ReachableInv(c, acts);
    if Condemned(After(c, acts)) {
      CondemnedRun(c, After(c, acts), more);
      LifecycleIsMonotone(c, acts, more);
    }
  }

  /** When the job is over, exactly one verdict was sent; it is clean exactly when the final status is
      not Infected. A clean job's temp file is the complete body, and what was stored in the result
      cache is the final status under that complete body. */
  lemma FinishedJob(c: Config, acts: seq<Action>)
    requires Runs(c, acts) && After(c, acts).uploadDone
    ensures var s := After(c, acts);
      && Terminal(s.status)
      && s.sent.Some? && (s.sent.value.clean <==> s.status != Infected)
      && (s.status == Clean || s.status == Infected ==> s.file == c.body)
      && (s.saved.Some? ==> s.saved.value.content == c.body && s.saved.value.finding.status == s.status)
  {
    ReachableInv(c, acts);
  }

  /** A job that may be served for download (clean or error) has its final temp file from that moment
      on, and the file is the whole body unless the run truncates. */
  lemma ServableFile(c: Config, acts: seq<Action>, more: seq<Action>)
    requires Runs(c, acts + more)
    ensures Runs(c, acts)
    ensures var s, t := After(c, acts), After(c, acts + more);
      s.status == Clean || s.status == Error ==>
        t.status == s.status && t.file == s.file && (s.file == c.body <==> !Truncates(c, s))
  {
    LifecycleIsMonotone(c, acts, more);
    ReachableInv(c, acts);
  }

  /** Channel discipline: sending the verdict never blocks, a reader that waits for the verdict after
      the upload finds it there, and a reader that continues with the tail finds the body open. */
  lemma ChannelsNeverBlock(c: Config, acts: seq<Action>)
    requires Runs(c, acts)
    ensures var s := After(c, acts);
      && (s.wpc.SendVerdict? ==> s.result.None? && s.sent.None?)
      && (s.rpc.OneVerdict? ==> s.result.Some?)
      && (s.rpc.FlushTail? ==> s.bodyOpen)
      && (s.rpc.OneReadAt? || s.rpc.FlushReadAt? ==> s.readPos < |s.file|)
  {
    ReachableInv(c, acts);
  }
}
