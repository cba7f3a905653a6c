/** Concrete runs: two in which end of file is reported although the body was not delivered, one in which
    an infected body is cut off, and one in which content known to be infected is delivered. */
module TrickleExamples {
  import opened Verdicts
  import opened TrickleProtocol
  import opened TrickleSafety
  import opened TrickleOutcome

  lemma Do(c: Config, acts: seq<Action>, a: Action) returns (more: seq<Action>)
    requires Runs(c, acts) && Enabled(c, After(c, acts), a)
    ensures more == acts + [a] && Runs(c, more) && After(c, more) == Apply(c, After(c, acts), a)
  {
    more := acts + [a];
    RunSplit(c, Init(), acts, [a]);
    assert [a][1..] == [];
    assert IsRun(c, Apply(c, After(c, acts), a), []);
  }

  // A failed scan of an oversize body

  /** A body of three bytes with a limit of one. */
  const OVERSIZE := Config([7, 8, 9], 1, true, false)

  /** The scanner cannot be reached; the writer starts draining, its first chunk being two bytes. */
  lemma FailedScanPulls() returns (acts: seq<Action>)
    ensures Runs(OVERSIZE, acts)
    ensures After(OVERSIZE, acts) ==
      Init().(wpc := WriteFile(Drain), pos := 2, chunk := [7, 8], status := Scanning, openOk := true, failedAt := Some(0))
  {
    acts := Do(OVERSIZE, [], Writer(OpenFile(true)));
    acts := Do(OVERSIZE, acts, Writer(WriterStep));
    acts := Do(OVERSIZE, acts, Writer(UrlAnswer(None)));
    acts := Do(OVERSIZE, acts, Writer(ScanReturns(Failed)));
    acts := Do(OVERSIZE, acts, Writer(WriterStep));
    acts := Do(OVERSIZE, acts, Writer(PullChunk(2)));
    assert After(OVERSIZE, acts).chunk == [7, 8];
  }

  lemma FailedScanForwards() returns (acts: seq<Action>)
    ensures Runs(OVERSIZE, acts)
    ensures After(OVERSIZE, acts) ==
      Init().(wpc := Pull(Drain), pos := 2, hashed := [7, 8], file := [7, 8], written := 2, token := true,
              status := Scanning, openOk := true, failedAt := Some(0))
  {
    acts := FailedScanPulls();
    acts := Do(OVERSIZE, acts, Writer(WriterStep));
    acts := Do(OVERSIZE, acts, Writer(WriterStep));
    acts := Do(OVERSIZE, acts, Writer(WriterStep));
    acts := Do(OVERSIZE, acts, Writer(WriterStep));
  }

  /** The limit is reached, so the writer publishes the error and closes up. */
  lemma FailedScanFinishes() returns (acts: seq<Action>)
    ensures Runs(OVERSIZE, acts)
    ensures After(OVERSIZE, acts) ==
      Init().(wpc := Done, pos := 2, hashed := [7, 8], file := [7, 8], written := 2, token := true,
              uploadDone := true, result := Some(Verdict(true, "")), status := Error, bodyOpen := false,
              sent := Some(Verdict(true, "")), openOk := true, failedAt := Some(0))
  {
    acts := FailedScanForwards();
    acts := Do(OVERSIZE, acts, Writer(CopyEnds));
    acts := Do(OVERSIZE, acts, Writer(WriterStep));
    acts := Do(OVERSIZE, acts, Writer(WriterStep));
    acts := Do(OVERSIZE, acts, Writer(WriterStep));
    acts := Do(OVERSIZE, acts, Writer(WriterStep));
  }

  lemma ClientIsLetThrough() returns (acts: seq<Action>)
    ensures Runs(OVERSIZE, acts)
    ensures After(OVERSIZE, acts) ==
      Init().(wpc := Done, pos := 2, hashed := [7, 8], file := [7, 8], written := 2, token := true,
              uploadDone := true, status := Error, bodyOpen := false, sent := Some(Verdict(true, "")), openOk := true,
              failedAt := Some(0), mode := Flushing, rpc := FlushReadAt(5, 2))
  {
    acts := FailedScanFinishes();
    acts := Do(OVERSIZE, acts, Reader(CallRead(5)));
    acts := Do(OVERSIZE, acts, Reader(ReceiveVerdict));
    acts := Do(OVERSIZE, acts, Reader(ReaderStep));
  }

  /** The client's first read takes the two bytes. */
  lemma ClientTakesTwo() returns (acts: seq<Action>)
    ensures Runs(OVERSIZE, acts)
    ensures After(OVERSIZE, acts) ==
      Init().(wpc := Done, pos := 2, hashed := [7, 8], file := [7, 8], written := 2, token := true,
              uploadDone := true, status := Error, bodyOpen := false, sent := Some(Verdict(true, "")), openOk := true,
              failedAt := Some(0), mode := Flushing, readPos := 2, last := Got(2, false), delivered := [7, 8])
  {
    acts := ClientIsLetThrough();
    acts := Do(OVERSIZE, acts, Reader(ReaderStep));
    assert After(OVERSIZE, acts).delivered == [7, 8];
  }

  /** The client then reads two bytes and is told end of file, although the body has three. */
  lemma ErrorTruncatesOversizeBody() returns (acts: seq<Action>)
    ensures Runs(OVERSIZE, acts)
    ensures After(OVERSIZE, acts).last == Got(0, true) && After(OVERSIZE, acts).delivered == [7, 8]
    ensures After(OVERSIZE, acts).delivered != OVERSIZE.body && After(OVERSIZE, acts).status == Error
  {
    acts := ClientTakesTwo();
    acts := Do(OVERSIZE, acts, Reader(CallRead(5)));
    acts := Do(OVERSIZE, acts, Reader(ReaderStep));
    acts := Do(OVERSIZE, acts, Reader(SeeUploadDone));
    acts := Do(OVERSIZE, acts, Reader(ReaderStep));
  }

  // A temp file that cannot be opened for writing

  const SMALL := Config([7], 5, true, true)

  /** The writer gives up at once. */
  lemma NoTempFile() returns (acts: seq<Action>)
    ensures Runs(SMALL, acts)
    ensures After(SMALL, acts) == Init().(wpc := SendVerdict(Verdict(true, "")), status := Error)
  {
    acts := Do(SMALL, [], Writer(OpenFile(false)));
    acts := Do(SMALL, acts, Writer(WriterStep));
  }

  /** The client is let through. */
  lemma NoTempFilePasses() returns (acts: seq<Action>)
    ensures Runs(SMALL, acts)
    ensures After(SMALL, acts) ==
      Init().(wpc := Done, uploadDone := true, result := Some(Verdict(true, "")), status := Error, bodyOpen := false,
              sent := Some(Verdict(true, "")))
  {
    acts := NoTempFile();
    acts := Do(SMALL, acts, Writer(WriterStep));
    acts := Do(SMALL, acts, Writer(WriterStep));
    acts := Do(SMALL, acts, Writer(WriterStep));
  }

  /** The client's first read is told end of file; it has nothing of the body. */
  lemma NoTempFileDeliversNothing() returns (acts: seq<Action>)
    ensures Runs(SMALL, acts)
    ensures After(SMALL, acts).last == Got(0, true) && After(SMALL, acts).delivered == []
    ensures After(SMALL, acts).delivered != SMALL.body && After(SMALL, acts).status == Error
  {
    acts := NoTempFilePasses();
    acts := Do(SMALL, acts, Reader(CallRead(5)));
    acts := Do(SMALL, acts, Reader(ReceiveVerdict));
    acts := Do(SMALL, acts, Reader(ReaderStep));
    acts := Do(SMALL, acts, Reader(SeeUploadDone));
    acts := Do(SMALL, acts, Reader(ReaderStep));
  }

  // An infected body

  const VIRUS := Config([7, 8], 5, true, false)

  /** The scanner is being fed the whole body. */
  lemma VirusIsPulled() returns (acts: seq<Action>)
    ensures Runs(VIRUS, acts)
    ensures After(VIRUS, acts) ==
      Init().(wpc := WriteFile(Scan), pos := 2, chunk := [7, 8], status := Scanning, openOk := true)
  {
    acts := Do(VIRUS, [], Writer(OpenFile(true)));
    acts := Do(VIRUS, acts, Writer(WriterStep));
    acts := Do(VIRUS, acts, Writer(UrlAnswer(None)));
    acts := Do(VIRUS, acts, Writer(PullChunk(2)));
    assert After(VIRUS, acts).chunk == [7, 8];
  }

  lemma VirusIsForwarded() returns (acts: seq<Action>)
    ensures Runs(VIRUS, acts)
    ensures After(VIRUS, acts) ==
      Init().(wpc := Pull(Scan), pos := 2, hashed := [7, 8], file := [7, 8], written := 2, token := true, status := Scanning,
              openOk := true)
  {
    acts := VirusIsPulled();
    acts := Do(VIRUS, acts, Writer(WriterStep));
    acts := Do(VIRUS, acts, Writer(WriterStep));
    acts := Do(VIRUS, acts, Writer(WriterStep));
    acts := Do(VIRUS, acts, Writer(WriterStep));
  }

  /** Meanwhile the client has waited one interval and been given the first byte. */
  lemma VirusTrickles() returns (acts: seq<Action>)
    ensures Runs(VIRUS, acts)
    ensures After(VIRUS, acts) ==
      Init().(wpc := Pull(Scan), pos := 2, hashed := [7, 8], file := [7, 8], written := 2, token := true, status := Scanning,
              openOk := true, readPos := 1, elapsed := INTERVAL, last := Got(1, false), delivered := [7])
  {
    acts := VirusIsForwarded();
    acts := Do(VIRUS, acts, Reader(CallRead(5)));
    acts := Do(VIRUS, acts, Reader(TimerFires(INTERVAL)));
    acts := Do(VIRUS, acts, Reader(ReaderStep));
    acts := Do(VIRUS, acts, Reader(ReaderStep));
  }

  /** The scanner finds something, and the verdict is sent. */
  lemma VirusIsFound() returns (acts: seq<Action>)
    ensures Runs(VIRUS, acts)
    ensures After(VIRUS, acts) ==
      Init().(wpc := CloseUpload, pos := 2, hashed := [7, 8], file := [7, 8], written := 2, token := true, status := Infected,
              threat := "Eicar", result := Some(Verdict(false, "Eicar")), sent := Some(Verdict(false, "Eicar")),
              openOk := true, readPos := 1, elapsed := INTERVAL, last := Got(1, false), delivered := [7])
  {
    acts := VirusTrickles();
    acts := Do(VIRUS, acts, Writer(ScanReturns(Reply(false, "Eicar"))));
    acts := Do(VIRUS, acts, Writer(WriterStep));
    acts := Do(VIRUS, acts, Writer(HashAnswer(None)));
    acts := Do(VIRUS, acts, Writer(WriterStep));
    acts := Do(VIRUS, acts, Writer(WriterStep));
    acts := Do(VIRUS, acts, Writer(WriterStep));
  }

  /** The client is cut off after the one byte it was trickled, and stays so whatever follows. */
  lemma InfectedBodyIsCutOff() returns (acts: seq<Action>)
    ensures Runs(VIRUS, acts)
    ensures After(VIRUS, acts).status == Infected && After(VIRUS, acts).mode.Aborted?
    ensures forall more :: Runs(VIRUS, acts + more) ==>
      After(VIRUS, acts + more).delivered == [7] && After(VIRUS, acts + more).last == VirusDetected
  {
    acts := VirusIsFound();
    acts := Do(VIRUS, acts, Reader(CallRead(5)));
    acts := Do(VIRUS, acts, Reader(ReceiveVerdict));
    forall more | Runs(VIRUS, acts + more)
      ensures After(VIRUS, acts + more).delivered == [7] && After(VIRUS, acts + more).last == VirusDetected
    {
      NoByteAfterInfected(VIRUS, acts, more);
    }
  }

  // Content known to be infected, with the scanner down

  /** The hash tier is never asked. */
  predicate NeverAsks(acts: seq<Action>) {
    forall a :: a in acts && a.Writer? ==> !a.w.HashAnswer?
  }

  /** A body that fits, read by a client, with a result cache. */
  predicate Fits(c: Config) {
    c.cli && c.caching && 0 < |c.body| <= c.maxSize
  }

  lemma ScannerIsDown(c: Config) returns (acts: seq<Action>)
    requires Fits(c)
    ensures Runs(c, acts) && NeverAsks(acts)
    ensures After(c, acts) == Init().(wpc := Pull(Drain), status := Scanning, openOk := true, failedAt := Some(0))
  {
    acts := Do(c, [], Writer(OpenFile(true)));
    acts := Do(c, acts, Writer(WriterStep));
    acts := Do(c, acts, Writer(UrlAnswer(None)));
    acts := Do(c, acts, Writer(ScanReturns(Failed)));
    acts := Do(c, acts, Writer(WriterStep));
  }

  lemma BodyIsPulled(c: Config) returns (acts: seq<Action>)
    requires Fits(c)
    ensures Runs(c, acts) && NeverAsks(acts)
    ensures After(c, acts) ==
      Init().(wpc := WriteFile(Drain), pos := |c.body|, chunk := c.body, status := Scanning, openOk := true, failedAt := Some(0))
  {
    acts := ScannerIsDown(c);
    acts := Do(c, acts, Writer(PullChunk(|c.body|)));
    assert c.body[0..|c.body|] == c.body;
  }

  lemma BodyIsDrained(c: Config) returns (acts: seq<Action>)
    requires Fits(c)
    ensures Runs(c, acts) && NeverAsks(acts)
    ensures After(c, acts) ==
      Init().(wpc := Pull(Drain), pos := |c.body|, hashed := c.body, file := c.body, written := |c.body|, token := true,
              status := Scanning, openOk := true, failedAt := Some(0))
  {
    acts := BodyIsPulled(c);
    assert [] + c.body == c.body;
    acts := Do(c, acts, Writer(WriterStep));
    acts := Do(c, acts, Writer(WriterStep));
    acts := Do(c, acts, Writer(WriterStep));
    acts := Do(c, acts, Writer(WriterStep));
  }

  lemma ErrorIsPublished(c: Config) returns (acts: seq<Action>)
    requires Fits(c)
    ensures Runs(c, acts) && NeverAsks(acts)
    ensures After(c, acts) ==
      Init().(wpc := Done, pos := |c.body|, hashed := c.body, file := c.body, written := |c.body|, token := true,
              uploadDone := true, result := Some(Verdict(true, "")), status := Error, bodyOpen := false,
              sent := Some(Verdict(true, "")), openOk := true, failedAt := Some(0))
  {
    acts := BodyIsDrained(c);
    acts := Do(c, acts, Writer(CopyEnds));
    acts := Do(c, acts, Writer(WriterStep));
    acts := Do(c, acts, Writer(WriterStep));
    acts := Do(c, acts, Writer(WriterStep));
    acts := Do(c, acts, Writer(WriterStep));
  }

  lemma ErrorLetsThrough(c: Config) returns (acts: seq<Action>)
    requires Fits(c)
    ensures Runs(c, acts) && NeverAsks(acts)
    ensures After(c, acts) ==
      Init().(wpc := Done, pos := |c.body|, hashed := c.body, file := c.body, written := |c.body|, token := true,
              uploadDone := true, status := Error, bodyOpen := false, sent := Some(Verdict(true, "")), openOk := true,
              failedAt := Some(0), mode := Flushing, rpc := FlushReadAt(|c.body|, |c.body|))
  {
    acts := ErrorIsPublished(c);
    acts := Do(c, acts, Reader(CallRead(|c.body|)));
    acts := Do(c, acts, Reader(ReceiveVerdict));
    acts := Do(c, acts, Reader(ReaderStep));
  }

  lemma WholeBodyIsRead(c: Config) returns (acts: seq<Action>)
    requires Fits(c)
    ensures Runs(c, acts) && NeverAsks(acts)
    ensures After(c, acts) ==
      Init().(wpc := Done, pos := |c.body|, hashed := c.body, file := c.body, written := |c.body|, token := true,
              uploadDone := true, status := Error, bodyOpen := false, sent := Some(Verdict(true, "")), openOk := true,
              failedAt := Some(0), mode := Flushing, readPos := |c.body|, last := Got(|c.body|, false), delivered := c.body)
  {
    acts := ErrorLetsThrough(c);
    assert [] + c.body[0..|c.body|] == c.body;
    acts := Do(c, acts, Reader(ReaderStep));
  }

  /** Whatever the body, and whatever the cache knows of it: the cache is not asked, and the client gets all
      of it, with a normal end of file. */
  lemma ScannerDownDeliversAnything(c: Config) returns (acts: seq<Action>)
    requires Fits(c)
    ensures Runs(c, acts) && NeverAsks(acts)
    ensures After(c, acts).last == Got(0, true) && After(c, acts).delivered == c.body && After(c, acts).status == Error
  {
    acts := WholeBodyIsRead(c);
    acts := Do(c, acts, Reader(CallRead(1)));
    acts := Do(c, acts, Reader(ReaderStep));
    acts := Do(c, acts, Reader(SeeUploadDone));
    acts := Do(c, acts, Reader(ReaderStep));
  }
}
