/** The inductive invariant of the scan/trickle protocol, one named part a concern. */
module TrickleInvariant {
  import opened Verdicts
  import opened TrickleProtocol

  predicate InCopy(pc: WriterPc) {
    pc.Pull? || pc.WriteFile? || pc.AddCount? || pc.SendToken? || pc.WriteHash?
  }

  /** The points after the temp file was opened and before the job's status is final. */
  predicate Working(pc: WriterPc) {
    pc.LookupUrl? || InCopy(pc) || pc.CheckSize? || pc.Handover? || pc.LookupHash? || pc.StoreFinding?
  }

  /** The points after the verdict was sent. */
  predicate AfterSend(pc: WriterPc) {
    pc.CloseUpload? || pc.CloseBody? || pc.Done?
  }

  /** Bytes: file, counter, hash and cursor all describe prefixes of the one upstream body. */
  predicate Bytes(c: Config, s: State) {
    && s.pos <= |c.body|
    && |s.file| <= s.pos && |s.file| <= Limit(c)
    && s.file == c.body[..|s.file|]
    && |s.hashed| <= |s.file|
    && s.hashed == c.body[..|s.hashed|]
    && (s.rest.Kept? ==> s.pos <= Limit(c))
    && (s.rest.Kept? && !s.wpc.WriteFile? ==> s.pos == |s.file|)
    && (s.rest.HandedOver? ==> c.cli)
    && (s.rest.Discarded? ==> !c.cli && s.pos == |c.body|)
  }

  /** Where the chunk in flight stands at each of the four steps of forwarding it. */
  predicate ChunkInFlight(c: Config, s: State) {
    match s.wpc
    case WriteFile(_) =>
      && 1 <= |s.chunk| && |s.file| + |s.chunk| == s.pos <= |c.body| && s.chunk == c.body[|s.file|..s.pos]
      && s.written == |s.file| == |s.hashed|
    case AddCount(_) =>
      && s.written + |s.chunk| == |s.file| <= |c.body| && s.chunk == c.body[s.written..|s.file|] && |s.hashed| == s.written
    case SendToken(_) =>
      s.written == |s.file| && |s.hashed| + |s.chunk| == |s.file| <= |c.body| && s.chunk == c.body[|s.hashed|..|s.file|]
    case WriteHash(_) =>
      s.written == |s.file| && |s.hashed| + |s.chunk| == |s.file| <= |c.body| && s.chunk == c.body[|s.hashed|..|s.file|]
    case _ => s.written == |s.file| == |s.hashed|
  }

  /** The temp file holds the whole body, and the hash accumulator has seen it. */
  predicate Complete(c: Config, s: State) {
    && |c.body| == s.pos == |s.file| == |s.hashed|
    && s.rest.Kept?
    && |c.body| <= c.maxSize
  }

  /** What a final status says about the temp file and the bytes that are not in it. */
  predicate Settled(c: Config, s: State, st: ScanStatus) {
    && (st == Clean || st == Infected ==> Complete(c, s))
    && (st == TooLarge ==> !s.rest.Kept? && s.written > c.maxSize && s.written == |s.file| && s.openOk)
    && (st == Error ==>
      && s.rest.Kept?
      && (if s.openOk then Exhausted(c, s) && s.failedAt.Some? && s.failedAt.value <= c.maxSize
          else s.failedAt.None? && s.file == []))
    && (st != Error ==> s.openOk)
    && (s.failedAt.Some? && s.failedAt.value <= c.maxSize ==> st == Error)
  }

  /** Control: what is known at each program point of the writer. */
  predicate Control(c: Config, s: State) {
    && (s.wpc.Open? || s.wpc.MarkScanning? || s.wpc.LookupUrl? ==> s.pos == 0 && s.file == [])
    && (s.wpc.Open? ==> !s.openOk)
    && (Working(s.wpc) || s.wpc.MarkScanning? ==> s.openOk)
    && (Working(s.wpc) || s.wpc.Open? || s.wpc.MarkScanning? ==> s.rest.Kept?)
    && (InCopy(s.wpc) && s.wpc.copying.Drain? <==>
        InCopy(s.wpc) && s.failedAt.Some? && s.failedAt.value <= c.maxSize)
    && (InCopy(s.wpc) && !s.wpc.copying.Drain? ==> s.failedAt.None?)
    && (s.wpc.Open? || s.wpc.MarkScanning? || s.wpc.LookupUrl? || s.wpc.LookupHash? || s.wpc.StoreFinding? ==> s.failedAt.None?)
    && (s.wpc.CheckSize? ==>
      && (s.wpc.after == Scanned(Failed) <==> s.failedAt.Some?)
      && (s.failedAt.Some? ==> s.failedAt.value == s.written)
      && (s.wpc.after != Scanned(Failed) ==> Exhausted(c, s)))
    && (s.wpc.Handover? ==> s.written > c.maxSize && (s.failedAt.Some? ==> s.failedAt.value > c.maxSize))
    && (s.wpc.LookupHash? || s.wpc.StoreFinding? ==> Complete(c, s))
    && (s.wpc.LookupHash? && s.wpc.save ==> Cacheable(s.wpc.base.status))
    && (s.wpc.StoreFinding? ==> Cacheable(s.wpc.finding.status))
    && (s.wpc.Publish? ==>
      && Terminal(s.wpc.finding.status)
      && Settled(c, s, s.wpc.finding.status)
      && (s.wpc.verdict.clean <==> s.wpc.finding.status != Infected))
    && (s.wpc.SendVerdict? ==>
      Terminal(s.status) && Settled(c, s, s.status) && (s.wpc.verdict.clean <==> s.status != Infected))
    && (AfterSend(s.wpc) ==>
      Terminal(s.status) && Settled(c, s, s.status) && s.sent.Some? && (s.sent.value.clean <==> s.status != Infected))
    && (!AfterSend(s.wpc) ==> s.sent.None?)
    && (s.wpc.Open? || s.wpc.MarkScanning? ==> s.status == Pending)
    && (Working(s.wpc) || s.wpc.Publish? ==> s.status == Pending || s.status == Scanning)
  }

  /** Channels: one verdict, the close order, and the ownership of the upstream body. */
  predicate Channels(c: Config, s: State) {
    && (s.result.Some? ==> s.result == s.sent)
    && (s.mode.Trickling? ==> s.result == s.sent)
    && (!s.mode.Trickling? ==>
      s.sent.Some? && s.result.None? && (s.mode.Flushing? <==> s.sent.value.clean))
    && (s.uploadDone <==> s.wpc.CloseBody? || s.wpc.Done?)
    && (s.bodyOpen <==> !s.wpc.Done? || s.rest.HandedOver?)
  }

  /** Cache: what is stored is stored under the complete body and agrees with the final status. */
  predicate CacheEntry(c: Config, s: State) {
    s.saved.Some? ==>
      && s.saved.value.content == c.body
      && Cacheable(s.saved.value.finding.status)
      && (s.wpc.Publish? || s.wpc.SendVerdict? || AfterSend(s.wpc))
      && s.saved.value.finding.status == (if s.wpc.Publish? then s.wpc.finding.status else s.status)
  }

  /** Bytes of the upstream body the reader has taken past the temp file. */
  function TailTaken(s: State): int {
    if s.rest.HandedOver? then s.pos - |s.file| else 0
  }

  /** Delivery: what the client has is a prefix of the body, from the file and then from the tail. */
  predicate Delivery(c: Config, s: State) {
    && s.readPos <= s.written
    && |s.delivered| == s.readPos + TailTaken(s)
    && |s.delivered| <= |c.body|
    && s.delivered == c.body[..|s.delivered|]
    && (TailTaken(s) > 0 ==> s.readPos == s.written && s.uploadDone)
  }

  predicate InOne(pc: ReaderPc) {
    pc.OneHead? || pc.OneReadAt? || pc.OneWait? || pc.OneDone? || pc.OneVerdict?
  }

  predicate InFlush(pc: ReaderPc) {
    pc.FlushHead? || pc.FlushReadAt? || pc.FlushWait? || pc.FlushDone? || pc.FlushTail?
  }

  /** What is known at each program point of the reader. */
  predicate ReaderControl(c: Config, s: State) {
    && (!c.cli ==> s.rpc.Idle? && s.mode.Trickling? && s.delivered == [])
    && (!s.rpc.Idle? ==> 1 <= s.rpc.len)
    && (s.rpc.Select? || InOne(s.rpc) ==> s.mode.Trickling?)
    && (s.rpc.Select? && s.rpc.ready ==> s.result.Some?)
    && (InFlush(s.rpc) ==> s.mode.Flushing?)
    && (s.rpc.OneReadAt? ==> s.readPos < s.written)
    && (s.rpc.FlushReadAt? ==> 1 <= s.rpc.available && s.readPos + s.rpc.available <= s.written)
    && (s.rpc.OneDone? || s.rpc.OneVerdict? || s.rpc.FlushDone? || s.rpc.FlushTail? ==> s.uploadDone)
    && (s.rpc.OneVerdict? || s.rpc.FlushTail? ==> s.readPos == s.written)
    && (s.rpc.FlushTail? ==> s.rest.HandedOver?)
    && (s.mode.Aborted? ==> s.last.VirusDetected?)
    && (s.last.VirusDetected? ==> s.mode.Aborted?)
  }

  /** No lost wakeup: a waiting reader that has not seen every counted byte has a wakeup coming. */
  predicate Wakeup(s: State) {
    (s.rpc.OneWait? || s.rpc.FlushWait?) && s.readPos < s.written ==>
      s.token || s.wpc.SendToken? || s.uploadDone
  }

  /** Pace: until the clean verdict arrives, one interval has been waited for every byte delivered. */
  predicate Pace(s: State) {
    !s.mode.Flushing? ==>
      |s.delivered| * INTERVAL + (if InOne(s.rpc) then INTERVAL else 0) <= s.elapsed
  }

  /** End of file is only reported once nothing is left to deliver. */
  predicate EofSeen(c: Config, s: State) {
    s.last.Got? && s.last.eof ==>
      && s.uploadDone && s.mode.Flushing? && s.readPos == s.written
      && (s.rest.HandedOver? ==> s.pos == |c.body|)
  }

  predicate WriterInv(c: Config, s: State) {
    Bytes(c, s) && ChunkInFlight(c, s) && Control(c, s) && CacheEntry(c, s)
  }

  predicate ReaderInv(c: Config, s: State) {
    Delivery(c, s) && ReaderControl(c, s) && Wakeup(s) && Pace(s) && EofSeen(c, s)
  }

  predicate Inv(c: Config, s: State) {
    WriterInv(c, s) && Channels(c, s) && ReaderInv(c, s)
  }

  lemma InitEstablishes(c: Config)
    ensures Inv(c, Init())
  {
  }

  /** Forwarding a chunk keeps the file and the hash prefixes of the body. */
  lemma ExtendPrefix(body: seq<Byte>, i: nat, j: nat)
    requires i <= j <= |body|
    ensures body[..i] + body[i..j] == body[..j]
  {
  }

  lemma MarkScanningKeeps(c: Config, s: State)
    requires Inv(c, s) && s.wpc.MarkScanning? && WriterStepReady(s)
    ensures Inv(c, DoWriterStep(c, s))
  {}

  lemma WriteFileKeeps(c: Config, s: State)
    requires Inv(c, s) && s.wpc.WriteFile? && WriterStepReady(s)
    ensures Inv(c, DoWriterStep(c, s))
  { ExtendPrefix(c.body, |s.file|, s.pos); }

  lemma AddCountKeeps(c: Config, s: State)
    requires Inv(c, s) && s.wpc.AddCount? && WriterStepReady(s)
    ensures Inv(c, DoWriterStep(c, s))
  {}

  lemma SendTokenKeeps(c: Config, s: State)
    requires Inv(c, s) && s.wpc.SendToken? && WriterStepReady(s)
    ensures Inv(c, DoWriterStep(c, s))
  {}

  lemma WriteHashKeeps(c: Config, s: State)
    requires Inv(c, s) && s.wpc.WriteHash? && WriterStepReady(s)
    ensures Inv(c, DoWriterStep(c, s))
  { ExtendPrefix(c.body, |s.hashed|, |s.file|); }

  lemma CheckSizeKeeps(c: Config, s: State)
    requires Inv(c, s) && s.wpc.CheckSize? && WriterStepReady(s)
    ensures Inv(c, DoWriterStep(c, s))
  {}

  lemma HandoverKeeps(c: Config, s: State)
    requires Inv(c, s) && s.wpc.Handover? && WriterStepReady(s)
    ensures Inv(c, DoWriterStep(c, s))
  {}

  lemma StoreFindingKeeps(c: Config, s: State)
    requires Inv(c, s) && s.wpc.StoreFinding? && WriterStepReady(s)
    ensures Inv(c, DoWriterStep(c, s))
  {}

  lemma PublishKeeps(c: Config, s: State)
    requires Inv(c, s) && s.wpc.Publish? && WriterStepReady(s)
    ensures Inv(c, DoWriterStep(c, s))
  {}

  lemma SendVerdictKeeps(c: Config, s: State)
    requires Inv(c, s) && s.wpc.SendVerdict? && WriterStepReady(s)
    ensures Inv(c, DoWriterStep(c, s))
  {}

  lemma CloseUploadKeeps(c: Config, s: State)
    requires Inv(c, s) && s.wpc.CloseUpload? && WriterStepReady(s)
    ensures Inv(c, DoWriterStep(c, s))
  {}

  lemma CloseBodyKeeps(c: Config, s: State)
    requires Inv(c, s) && s.wpc.CloseBody? && WriterStepReady(s)
    ensures Inv(c, DoWriterStep(c, s))
  {}

  lemma OpenFileKeeps(c: Config, s: State, a: WriterAction)
    requires Inv(c, s) && a.OpenFile? && WriterEnabled(c, s, a)
    ensures Inv(c, ApplyWriter(c, s, a))
  {}

  lemma UrlAnswerKeeps(c: Config, s: State, a: WriterAction)
    requires Inv(c, s) && a.UrlAnswer? && WriterEnabled(c, s, a)
    ensures Inv(c, ApplyWriter(c, s, a))
  {}

  lemma PullChunkKeeps(c: Config, s: State, a: WriterAction)
    requires Inv(c, s) && a.PullChunk? && WriterEnabled(c, s, a)
    ensures Inv(c, ApplyWriter(c, s, a))
  {}

  lemma CopyEndsKeeps(c: Config, s: State, a: WriterAction)
    requires Inv(c, s) && a.CopyEnds? && WriterEnabled(c, s, a)
    ensures Inv(c, ApplyWriter(c, s, a))
  {
    assert s.written == |s.file| == |s.hashed| == s.pos;
    if s.wpc.copying.Drain? {
      assert Settled(c, s, Error);
    }
  }

  lemma ScanReturnsKeeps(c: Config, s: State, a: WriterAction)
    requires Inv(c, s) && a.ScanReturns? && WriterEnabled(c, s, a)
    ensures Inv(c, ApplyWriter(c, s, a))
  {}

  lemma HashAnswerKeeps(c: Config, s: State, a: WriterAction)
    requires Inv(c, s) && a.HashAnswer? && WriterEnabled(c, s, a)
    ensures Inv(c, ApplyWriter(c, s, a))
  {}

  lemma ReaderFrame(c: Config, s: State, t: State)
    requires WriterInv(c, s) && SameForWriter(s, t)
    requires t.pos == s.pos || (s.rest.HandedOver? && s.pos <= t.pos <= |c.body| && AfterSend(s.wpc))
    ensures WriterInv(c, t)
  {}

  predicate ReaderSide(c: Config, s: State) {
    Channels(c, s) && ReaderInv(c, s)
  }

  lemma OneHeadKeeps(c: Config, s: State)
    requires Inv(c, s) && s.rpc.OneHead?
    ensures ReaderSide(c, DoReaderStep(s))
  {}

  lemma OneReadAtKeeps(c: Config, s: State)
    requires Inv(c, s) && s.rpc.OneReadAt?
    ensures ReaderSide(c, DoReaderStep(s))
  {
    assert |s.delivered| == s.readPos < |s.file|;
    assert [s.file[s.readPos]] == c.body[s.readPos..s.readPos + 1];
    ExtendPrefix(c.body, s.readPos, s.readPos + 1);
    assert Delivery(c, DoReaderStep(s));
  }

  lemma OneDoneKeeps(c: Config, s: State)
    requires Inv(c, s) && s.rpc.OneDone?
    ensures ReaderSide(c, DoReaderStep(s))
  {}

  lemma FlushHeadKeeps(c: Config, s: State)
    requires Inv(c, s) && s.rpc.FlushHead?
    ensures ReaderSide(c, DoReaderStep(s))
  {}

  /** Slices of a prefix of the body are slices of the body. */
  lemma SameSlice(file: seq<Byte>, body: seq<Byte>, i: nat, j: nat)
    requires i <= j <= |file| <= |body| && file == body[..|file|]
    ensures file[i..j] == body[i..j]
  {
    forall k | i <= k < j ensures file[k] == body[k] {
      assert body[..|file|][k] == body[k];
    }
  }

  /** Reading from the file extends what was delivered by the next bytes of the body. */
  lemma FileExtendsDelivery(c: Config, s: State, n: nat)
    requires Inv(c, s) && s.rpc.FlushReadAt? && n == Min(s.rpc.len, s.rpc.available)
    ensures 1 <= n && |s.delivered| == s.readPos && s.readPos + n <= s.written <= |c.body|
    ensures DoReaderStep(s) ==
      s.(delivered := c.body[..s.readPos + n], readPos := s.readPos + n, last := Got(n, false), rpc := Idle)
  {
    SameSlice(s.file, c.body, s.readPos, s.readPos + n);
    ExtendPrefix(c.body, s.readPos, s.readPos + n);
  }

  lemma FlushReadAtKeeps(c: Config, s: State)
    requires Inv(c, s) && s.rpc.FlushReadAt?
    ensures ReaderSide(c, DoReaderStep(s))
  {
    FileExtendsDelivery(c, s, Min(s.rpc.len, s.rpc.available));
  }

  lemma FlushDoneKeeps(c: Config, s: State)
    requires Inv(c, s) && s.rpc.FlushDone?
    ensures ReaderSide(c, DoReaderStep(s))
  {}

  lemma CallReadKeeps(c: Config, s: State, a: ReaderAction)
    requires Inv(c, s) && a.CallRead? && ReaderEnabled(c, s, a)
    ensures ReaderSide(c, ApplyReader(c, s, a))
  {}

  lemma ReceiveVerdictKeeps(c: Config, s: State, a: ReaderAction)
    requires Inv(c, s) && a.ReceiveVerdict? && ReaderEnabled(c, s, a)
    ensures ReaderSide(c, ApplyReader(c, s, a))
  {}

  lemma TimerFiresKeeps(c: Config, s: State, a: ReaderAction)
    requires Inv(c, s) && a.TimerFires? && ReaderEnabled(c, s, a)
    ensures ReaderSide(c, ApplyReader(c, s, a))
  {}

  lemma TakeTokenKeeps(c: Config, s: State, a: ReaderAction)
    requires Inv(c, s) && a.TakeToken? && ReaderEnabled(c, s, a)
    ensures ReaderSide(c, ApplyReader(c, s, a))
  {}

  lemma SeeUploadDoneKeeps(c: Config, s: State, a: ReaderAction)
    requires Inv(c, s) && a.SeeUploadDone? && ReaderEnabled(c, s, a)
    ensures ReaderSide(c, ApplyReader(c, s, a))
  {}

  lemma ReadTailKeeps(c: Config, s: State, a: ReaderAction)
    requires Inv(c, s) && a.ReadTail? && ReaderEnabled(c, s, a)
    ensures ReaderSide(c, ApplyReader(c, s, a))
  {}

  lemma WriterStepKeeps(c: Config, s: State)
    requires Inv(c, s) && WriterStepReady(s)
    ensures Inv(c, DoWriterStep(c, s))
  {
    match s.wpc
    case MarkScanning => MarkScanningKeeps(c, s);
    case WriteFile(_) => WriteFileKeeps(c, s);
    case AddCount(_) => AddCountKeeps(c, s);
    case SendToken(_) => SendTokenKeeps(c, s);
    case WriteHash(_) => WriteHashKeeps(c, s);
    case CheckSize(_) => CheckSizeKeeps(c, s);
    case Handover => HandoverKeeps(c, s);
    case StoreFinding(_) => StoreFindingKeeps(c, s);
    case Publish(_, _) => PublishKeeps(c, s);
    case SendVerdict(_) => SendVerdictKeeps(c, s);
    case CloseUpload => CloseUploadKeeps(c, s);
    case CloseBody => CloseBodyKeeps(c, s);
  }

  lemma WriterActionKeeps(c: Config, s: State, a: WriterAction)
    requires Inv(c, s) && WriterEnabled(c, s, a)
    ensures Inv(c, ApplyWriter(c, s, a))
  {
    match a
    case OpenFile(_) => OpenFileKeeps(c, s, a);
    case UrlAnswer(_) => UrlAnswerKeeps(c, s, a);
    case PullChunk(_) => PullChunkKeeps(c, s, a);
    case CopyEnds => CopyEndsKeeps(c, s, a);
    case ScanReturns(_) => ScanReturnsKeeps(c, s, a);
    case HashAnswer(_) => HashAnswerKeeps(c, s, a);
    case WriterStep => WriterStepKeeps(c, s);
  }

  lemma ReaderStepKeeps(c: Config, s: State)
    requires Inv(c, s) && ReaderStepReady(s)
    ensures ReaderSide(c, DoReaderStep(s))
  {
    match s.rpc
    case OneHead(_) => OneHeadKeeps(c, s);
    case OneReadAt(_) => OneReadAtKeeps(c, s);
    case OneDone(_) => OneDoneKeeps(c, s);
    case FlushHead(_) => FlushHeadKeeps(c, s);
    case FlushReadAt(_, _) => FlushReadAtKeeps(c, s);
    case FlushDone(_) => FlushDoneKeeps(c, s);
  }

  lemma ReaderActionKeeps(c: Config, s: State, a: ReaderAction)
    requires Inv(c, s) && ReaderEnabled(c, s, a)
    ensures ReaderSide(c, ApplyReader(c, s, a))
  {
    match a
    case CallRead(_) => CallReadKeeps(c, s, a);
    case ReceiveVerdict => ReceiveVerdictKeeps(c, s, a);
    case TimerFires(_) => TimerFiresKeeps(c, s, a);
    case TakeToken => TakeTokenKeeps(c, s, a);
    case SeeUploadDone => SeeUploadDoneKeeps(c, s, a);
    case ReadTail(_, _) => ReadTailKeeps(c, s, a);
    case ReaderStep => ReaderStepKeeps(c, s);
  }

  lemma ReaderActionFrame(c: Config, s: State, a: ReaderAction)
    requires Inv(c, s) && ReaderEnabled(c, s, a)
    ensures WriterInv(c, ApplyReader(c, s, a))
  {
    assert a.ReadTail? ==> s.rest.HandedOver? && s.uploadDone;
    ReaderFrame(c, s, ApplyReader(c, s, a));
  }

  /** Every action of either process keeps the invariant. */
  lemma StepKeepsInv(c: Config, s: State, a: Action)
    requires Inv(c, s) && Enabled(c, s, a)
    ensures Inv(c, Apply(c, s, a))
  {
    match a
    case Writer(w) => WriterActionKeeps(c, s, w);
    case Reader(r) =>
      ReaderActionKeeps(c, s, r);
      ReaderActionFrame(c, s, r);
  }

  /** The invariant holds after every run, whatever the interleaving. */
  lemma {:induction false} RunKeepsInv(c: Config, s: State, acts: seq<Action>)
    requires Inv(c, s) && IsRun(c, s, acts)
    ensures Inv(c, Exec(c, s, acts))
    decreases |acts|
  {
    if acts != [] {
      StepKeepsInv(c, s, acts[0]);
      RunKeepsInv(c, Apply(c, s, acts[0]), acts[1..]);
    }
  }
}
