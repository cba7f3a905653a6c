/** The scan job and the trickle body as two processes over shared memory.

    The writer is the goroutine that copies the upstream body into the temp file, feeds the
    scanner and publishes the verdict. The reader is the HTTP server calling Read on the body
    it sends to the client. Every access to shared state (temp file, counter, token channel,
    result channel, closed channel, tail hand-over) is one action; a run is any sequence of
    enabled actions, so a statement about all runs is one about all interleavings.
 */
module TrickleProtocol {
  import opened Verdicts

  /** The trickle interval, in milliseconds. */
  const INTERVAL: nat := 1000

  /** What stays fixed while one job runs. */
  datatype Config = Config(
    body: seq<Byte>,  // everything the upstream will send
    maxSize: int,     // bytes the scanner may see
    cli: bool,        // true: a trickle body reads the job; false: a browser job
    caching: bool)    // whether the manager has a result cache

  /** How many bytes the limited reader yields at most. */
  function Limit(c: Config): nat {
    if c.maxSize + 1 < 0 then 0 else c.maxSize + 1
  }

  datatype ScanReply = Reply(clean: bool, threat: string) | Failed

  /** On whose behalf the tee is being read. */
  datatype Copying = CacheCopy(url: Finding) | Scan | Drain

  datatype AfterCopy = Cached(url: Finding) | Scanned(reply: ScanReply)

  datatype WriterPc =
    | Open
    | MarkScanning
    | LookupUrl
    | Pull(copying: Copying)
    | WriteFile(copying: Copying)
    | AddCount(copying: Copying)
    | SendToken(copying: Copying)
    | WriteHash(copying: Copying)
    | CheckSize(after: AfterCopy)
    | Handover
    | LookupHash(base: Finding, save: bool)
    | StoreFinding(finding: Finding)
    | Publish(finding: Finding, verdict: Verdict)
    | SendVerdict(verdict: Verdict)
    | CloseUpload
    | CloseBody
    | Done

  datatype Mode = Trickling | Flushing | Aborted

  datatype ReaderPc =
    | Idle
    | Select(len: nat, ready: bool)  // ready: the verdict was there when the timer was started
    | OneHead(len: nat)
    | OneReadAt(len: nat)
    | OneWait(len: nat)
    | OneDone(len: nat)
    | OneVerdict(len: nat)
    | FlushHead(len: nat)
    | FlushReadAt(len: nat, available: nat)
    | FlushWait(len: nat)
    | FlushDone(len: nat)
    | FlushTail(len: nat)

  datatype ReadResult = NoRead | Got(n: nat, eof: bool) | VirusDetected

  /** What became of the upstream bytes past the limit. */
  datatype Rest = Kept | HandedOver | Discarded

  datatype Saved = Saved(content: seq<Byte>, finding: Finding)

  datatype State = State(
    // writer
    wpc: WriterPc,
    pos: nat,                  // bytes of the upstream body consumed so far, by anyone
    chunk: seq<Byte>,          // the chunk the tee is forwarding
    hashed: seq<Byte>,         // what the hash accumulator has seen
    // shared
    file: seq<Byte>,
    written: nat,
    token: bool,
    uploadDone: bool,
    result: Option<Verdict>,
    rest: Rest,
    status: ScanStatus,
    threat: string,
    bodyOpen: bool,
    // reader
    rpc: ReaderPc,
    mode: Mode,
    readPos: nat,
    elapsed: nat,              // time spent waiting for the trickle timer
    last: ReadResult,
    // history
    delivered: seq<Byte>,      // everything handed to the client
    sent: Option<Verdict>,     // the verdict sent, if any
    saved: Option<Saved>,      // what was stored in the result cache, under which content
    openOk: bool,              // the temp file could be opened for writing
    failedAt: Option<nat>)     // bytes the scanner had consumed when it failed

  function Init(): State {
    State(Open, 0, [], [], [], 0, false, false, None, Kept, Pending, "", true,
          Idle, Trickling, 0, 0, NoRead, [], None, None, false, None)
  }

  datatype WriterAction =
    | OpenFile(ok: bool)
    | UrlAnswer(hit: Option<Finding>)
    | PullChunk(n: nat)
    | CopyEnds
    | ScanReturns(reply: ScanReply)
    | HashAnswer(hit: Option<Finding>)
    | WriterStep

  datatype ReaderAction =
    | CallRead(len: nat)
    | ReceiveVerdict
    | TimerFires(dt: nat)
    | TakeToken
    | SeeUploadDone
    | ReadTail(n: nat, eof: bool)
    | ReaderStep

  datatype Action = Writer(w: WriterAction) | Reader(r: ReaderAction)

  /** The limited reader has nothing more to give. */
  predicate Exhausted(c: Config, s: State) {
    s.pos >= |c.body| || s.pos >= Limit(c)
  }

  predicate WriterStepReady(s: State) {
    || s.wpc.MarkScanning? || s.wpc.WriteFile? || s.wpc.AddCount? || s.wpc.SendToken? || s.wpc.WriteHash?
    || s.wpc.CheckSize? || s.wpc.Handover? || s.wpc.StoreFinding? || s.wpc.Publish?
    || (s.wpc.SendVerdict? && s.result.None?)
    || s.wpc.CloseUpload? || s.wpc.CloseBody?
  }

  predicate ReaderStepReady(s: State) {
    s.rpc.OneHead? || s.rpc.OneReadAt? || s.rpc.OneDone? || s.rpc.FlushHead? || s.rpc.FlushReadAt? || s.rpc.FlushDone?
  }

  predicate WriterEnabled(c: Config, s: State, a: WriterAction) {
    match a
    case OpenFile(_) => s.wpc.Open?
    case UrlAnswer(hit) => s.wpc.LookupUrl? && (hit.Some? ==> c.caching)
    case PullChunk(n) => s.wpc.Pull? && 1 <= n && s.pos + n <= |c.body| && s.pos + n <= Limit(c)
    case CopyEnds => s.wpc.Pull? && !s.wpc.copying.Scan? && Exhausted(c, s)
    case ScanReturns(reply) => s.wpc == Pull(Scan) && (reply.Reply? ==> Exhausted(c, s))
    case HashAnswer(hit) => s.wpc.LookupHash? && (hit.Some? ==> c.caching)
    case WriterStep => WriterStepReady(s)
  }

  predicate ReaderEnabled(c: Config, s: State, a: ReaderAction) {
    match a
    case CallRead(len) => s.rpc.Idle? && c.cli && 1 <= len
    case ReceiveVerdict => (s.rpc.Select? || s.rpc.OneVerdict?) && s.result.Some?
    case TimerFires(dt) => s.rpc.Select? && !s.rpc.ready && INTERVAL <= dt
    case TakeToken => (s.rpc.OneWait? || s.rpc.FlushWait?) && s.token
    case SeeUploadDone => (s.rpc.OneWait? || s.rpc.FlushWait?) && s.uploadDone
    case ReadTail(n, eof) =>
      && s.rpc.FlushTail? && s.bodyOpen
      && n <= s.rpc.len && s.pos + n <= |c.body|
      && (n == 0 ==> eof) && (eof ==> s.pos + n == |c.body|)
    case ReaderStep => ReaderStepReady(s)
  }

  predicate Enabled(c: Config, s: State, a: Action) {
    match a
    case Writer(w) => WriterEnabled(c, s, w)
    case Reader(r) => ReaderEnabled(c, s, r)
  }

  /** Setting the job's result and choosing the verdict to send, for a final finding. */
  function Conclude(f: Finding): WriterPc {
    Publish(if f.status == Clean then Finding(Clean, "") else Finding(Infected, f.threat),
            Verdict(f.status == Clean, f.threat))
  }

  function PassThrough(status: ScanStatus): WriterPc {
    Publish(Finding(status, ""), Verdict(true, ""))
  }

  function AfterSizeCheck(c: Config, s: State, after: AfterCopy): WriterPc {
    if s.written > c.maxSize then Handover
    else match after
      case Cached(url) => LookupHash(url, false)
      case Scanned(Failed) => Pull(Drain)
      case Scanned(Reply(clean, threat)) => LookupHash(Finding(if clean then Clean else Infected, threat), true)
  }

  /** Nothing the reader owns differs, and no signal to it is taken back. */
  predicate SameForReader(s: State, t: State) {
    && t.rpc == s.rpc && t.mode == s.mode && t.readPos == s.readPos && t.elapsed == s.elapsed
    && t.last == s.last && t.delivered == s.delivered
    && (s.uploadDone ==> t.uploadDone) && (s.token ==> t.token) && s.written <= t.written
    && (s.result.Some? ==> t.result == s.result)
  }

  function DoWriterStep(c: Config, s: State): (t: State)
    requires WriterStepReady(s)
    ensures SameForReader(s, t)
  {
    match s.wpc
    case MarkScanning => s.(status := Scanning, threat := "", wpc := LookupUrl)
    case WriteFile(k) => s.(file := s.file + s.chunk, wpc := AddCount(k))
    case AddCount(k) => s.(written := s.written + |s.chunk|, wpc := SendToken(k))
    case SendToken(k) => s.(token := true, wpc := WriteHash(k))
    case WriteHash(k) => s.(hashed := s.hashed + s.chunk, chunk := [], wpc := Pull(k))
    case CheckSize(after) => s.(wpc := AfterSizeCheck(c, s, after))
    case Handover =>
      if c.cli then s.(rest := HandedOver, wpc := PassThrough(TooLarge))
      else s.(rest := Discarded, pos := if s.pos < |c.body| then |c.body| else s.pos, wpc := PassThrough(TooLarge))
    case StoreFinding(f) =>
      s.(saved := if c.caching && Cacheable(f.status) then Some(Saved(s.hashed, f)) else s.saved, wpc := Conclude(f))
    case Publish(f, v) => s.(status := f.status, threat := f.threat, wpc := SendVerdict(v))
    case SendVerdict(v) => s.(result := Some(v), sent := Some(v), wpc := CloseUpload)
    case CloseUpload => s.(uploadDone := true, wpc := CloseBody)
    case CloseBody => s.(bodyOpen := s.rest.HandedOver?, wpc := Done)
  }

  function Min(a: int, b: int): int {
    if a < b then a else b
  }

  /** Nothing the writer owns differs, except perhaps the cursor into the upstream body. */
  predicate SameForWriter(s: State, t: State) {
    && t.wpc == s.wpc && t.chunk == s.chunk && t.hashed == s.hashed && t.file == s.file && t.written == s.written
    && t.uploadDone == s.uploadDone && t.rest == s.rest && t.bodyOpen == s.bodyOpen
    && t.status == s.status && t.threat == s.threat && t.sent == s.sent && t.saved == s.saved
    && t.openOk == s.openOk && t.failedAt == s.failedAt
  }

  function DoReaderStep(s: State): (t: State)
    requires ReaderStepReady(s)
    ensures SameForWriter(s, t) && t.pos == s.pos
  {
    match s.rpc
    case OneHead(len) => s.(rpc := if s.readPos < s.written then OneReadAt(len) else OneWait(len))
    case OneReadAt(len) =>
      if s.readPos < |s.file| then
        s.(delivered := s.delivered + [s.file[s.readPos]], readPos := s.readPos + 1, last := Got(1, false), rpc := Idle)
      else s.(last := Got(0, true), rpc := Idle)
    case OneDone(len) => s.(rpc := if s.readPos >= s.written then OneVerdict(len) else OneHead(len))
    case FlushHead(len) =>
      s.(rpc := if s.readPos < s.written then FlushReadAt(len, s.written - s.readPos) else FlushWait(len))
    case FlushReadAt(len, available) =>
      var n := Min(Min(len, available), |s.file| - s.readPos);
      if n > 0 then
        s.(delivered := s.delivered + s.file[s.readPos..s.readPos + n], readPos := s.readPos + n,
           last := Got(n, false), rpc := Idle)
      else s.(rpc := FlushWait(len))
    case FlushDone(len) =>
      if s.readPos >= s.written then
        if s.rest.HandedOver? then s.(rpc := FlushTail(len)) else s.(last := Got(0, true), rpc := Idle)
      else s.(rpc := FlushHead(len))
  }

  function Receive(s: State, v: Verdict): (t: State)
    requires s.rpc.Select? || s.rpc.OneVerdict?
    ensures SameForWriter(s, t) && t.pos == s.pos
  {
    if v.clean then s.(result := None, mode := Flushing, rpc := FlushHead(s.rpc.len))
    else s.(result := None, mode := Aborted, last := VirusDetected, rpc := Idle)
  }

  /** A writer action leaves the reader's side alone and only ever adds signals. */
  function ApplyWriter(c: Config, s: State, a: WriterAction): (t: State)
    requires WriterEnabled(c, s, a)
    ensures SameForReader(s, t)
  {
    match a
    case OpenFile(ok) => if ok then s.(openOk := true, wpc := MarkScanning) else s.(wpc := PassThrough(Error))
    case UrlAnswer(hit) => s.(wpc := Pull(if hit.Some? then CacheCopy(hit.value) else Scan))
    case PullChunk(n) => s.(chunk := c.body[s.pos..s.pos + n], pos := s.pos + n, wpc := WriteFile(s.wpc.copying))
    case CopyEnds =>
      if s.wpc.copying.Drain? then s.(wpc := PassThrough(Error))
      else s.(wpc := CheckSize(Cached(s.wpc.copying.url)))
    case ScanReturns(reply) =>
      s.(wpc := CheckSize(Scanned(reply)), failedAt := if reply.Failed? then Some(s.pos) else None)
    case HashAnswer(hit) =>
      var f := MergeIfHit(s.wpc.base, hit);
      s.(wpc := if s.wpc.save then StoreFinding(f) else Conclude(f))
    case WriterStep => DoWriterStep(c, s)
  }

  /** A reader action leaves the writer's side alone; only reading the tail moves the cursor. */
  function ApplyReader(c: Config, s: State, a: ReaderAction): (t: State)
    requires ReaderEnabled(c, s, a)
    ensures SameForWriter(s, t)
    ensures t.pos == s.pos + (if a.ReadTail? then a.n else 0)
  {
    match a
    case CallRead(len) =>
      match s.mode {
        case Aborted => s.(last := VirusDetected)
        case Flushing => s.(rpc := FlushHead(len))
        case Trickling => s.(rpc := Select(len, s.result.Some?))
      }
    case ReceiveVerdict => Receive(s, s.result.value)
    case TimerFires(dt) => s.(elapsed := s.elapsed + dt, rpc := OneHead(s.rpc.len))
    case TakeToken => s.(token := false, rpc := if s.rpc.OneWait? then OneHead(s.rpc.len) else FlushHead(s.rpc.len))
    case SeeUploadDone => s.(rpc := if s.rpc.OneWait? then OneDone(s.rpc.len) else FlushDone(s.rpc.len))
    case ReadTail(n, eof) =>
      s.(delivered := s.delivered + c.body[s.pos..s.pos + n], pos := s.pos + n, last := Got(n, eof), rpc := Idle)
    case ReaderStep => DoReaderStep(s)
  }

  function Apply(c: Config, s: State, a: Action): State
    requires Enabled(c, s, a)
  {
    match a
    case Writer(w) => ApplyWriter(c, s, w)
    case Reader(r) => ApplyReader(c, s, r)
  }

  // Runs

  /** Every action of the sequence is enabled when its turn comes. */
  predicate IsRun(c: Config, s: State, acts: seq<Action>)
    decreases |acts|
  {
    acts == [] || (Enabled(c, s, acts[0]) && IsRun(c, Apply(c, s, acts[0]), acts[1..]))
  }

  function Exec(c: Config, s: State, acts: seq<Action>): State
    requires IsRun(c, s, acts)
    decreases |acts|
  {
    if acts == [] then s else Exec(c, Apply(c, s, acts[0]), acts[1..])
  }

  /** Runs compose: a run is a run of its first part followed by a run of the rest. */
  lemma {:induction false} RunSplit(c: Config, s: State, acts: seq<Action>, more: seq<Action>)
    ensures IsRun(c, s, acts + more) <==> IsRun(c, s, acts) && IsRun(c, Exec(c, s, acts), more)
    ensures IsRun(c, s, acts + more) ==> Exec(c, s, acts + more) == Exec(c, Exec(c, s, acts), more)
    decreases |acts|
  {
    if acts == [] {
      assert acts + more == more;
    } else {
      assert (acts + more)[1..] == acts[1..] + more;
      if Enabled(c, s, acts[0]) {
        RunSplit(c, Apply(c, s, acts[0]), acts[1..], more);
      }
    }
  }
}
