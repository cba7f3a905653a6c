/** The two programs of the scan/trickle protocol as their loops are written, TrickleBody.Read and
    runScan, each interrupted by the other between any two accesses to shared memory. They only ever
    take steps of the protocol, so the theorems about runs are theorems about them; and they terminate. */
module SessionProgram {
  import opened Verdicts
  import opened TrickleProtocol
  import opened TrickleSafety
  import opened TrickleProgress
  import opened TrickleOutcome

  datatype ReadError = Nil | Eof | Virus

  /** What the surroundings of one scan job will do: whether the temp file opens, what the URL tier and the
      hash tier answer if asked, and what the scanner answers after reading so many bytes. Only a scanner that
      fails stops early; any other answer comes after the end of its input. */
  datatype Surroundings = Surroundings(
    opens: bool, url: Option<Finding>, consumed: nat, reply: ScanReply, hash: Option<Finding>)

  /** The memory of a job and its trickle body, and the run that led to its present contents. */
  class Session {
    const c: Config
    var s: State
    ghost var trace: seq<Action>

    ghost predicate Valid()
      reads this
    {
      Runs(c, trace) && s == After(c, trace)
    }

    constructor (c: Config)
      ensures Valid() && this.c == c && s == Init() && trace == []
    {
      this.c := c;
      s := Init();
      trace := [];
    }

    /** A bound on the actions that can still happen before the next Read is called. */
    ghost function Left(): nat
      requires Valid()
      reads this
    {
      ReachableInv(c, trace);
      Rank(c, s)
    }

    /** Only actions internal to the Read under way, or of the writer, have happened since. */
    ghost predicate Since(before: seq<Action>)
      reads this
    {
      before <= trace && forall i :: |before| <= i < |trace| ==> Internal(trace[i])
    }

    /** One atomic access to shared memory. */
    method Step(a: Action)
      requires Valid() && Enabled(c, s, a)
      modifies this
      ensures Valid() && s == Apply(c, old(s), a) && trace == old(trace) + [a]
      ensures Heard(trace) == Note(Heard(old(trace)), a)
    {
      NoteLast(NOTHING, trace, a);
      RunSplit(c, Init(), trace, [a]);
      assert [a][1..] == [] && IsRun(c, Apply(c, s, a), []);
      s := Apply(c, s, a);
      trace := trace + [a];
    }

    // The reader: TrickleBody

    method Inner(a: Action)
      requires Valid() && Enabled(c, s, a) && Internal(a)
      modifies this
      ensures Valid() && s == Apply(c, old(s), a) && trace == old(trace) + [a]
      ensures Since(old(trace)) && Left() < old(Left())
    {
      ReachableInv(c, trace);
      InternalDecreases(c, s, a);
      Step(a);
    }

    method WriterActs(a: WriterAction)
      requires Valid() && WriterEnabled(c, s, a)
      modifies this
      ensures Valid() && SameForReader(old(s), s) && Since(old(trace)) && Left() < old(Left())
    {
      ReachableInv(c, trace);
      Inner(Writer(a));
    }

    /** The writer takes any number of steps. */
    method WriterRuns()
      requires Valid()
      modifies this
      ensures Valid() && SameForReader(old(s), s) && Since(old(trace)) && Left() <= old(Left())
    {
      var n: nat := *;
      while n > 0
        invariant Valid() && SameForReader(old(s), s) && Since(old(trace)) && Left() <= old(Left())
      {
        var a: WriterAction := *;
        if WriterEnabled(c, s, a) {
          WriterActs(a);
        }
        n := n - 1;
      }
    }

    /** Blocks in a select until the upload is done or a token arrives; meanwhile the writer runs. */
    method AwaitSignal()
      requires Valid() && (s.rpc.OneWait? || s.rpc.FlushWait?)
      modifies this
      ensures Valid() && SameForReader(old(s), s) && Since(old(trace)) && Left() <= old(Left())
      ensures s.token || s.uploadDone
    {
      WriterRuns();
      while !(s.token || s.uploadDone)
        invariant Valid() && SameForReader(old(s), s) && Since(old(trace)) && Left() <= old(Left())
        decreases Left()
      {
        ReachableInv(c, trace);
        var a: WriterAction := *;
        if !WriterEnabled(c, s, a) {
          a := NextWriter(c, s);
        }
        WriterActs(a);
      }
    }

    /** The select over the two signals picks any that is ready. */
    method SelectSignal() returns (done: bool)
      requires Valid() && (s.rpc.OneWait? || s.rpc.FlushWait?)
      modifies this
      ensures Valid() && Since(old(trace)) && Left() < old(Left())
      ensures s.mode == old(s.mode) && s.delivered == old(s.delivered)
      ensures s.rpc == (if old(s.rpc).OneWait? then (if done then OneDone(old(s.rpc.len)) else OneHead(old(s.rpc.len)))
                        else if done then FlushDone(old(s.rpc.len)) else FlushHead(old(s.rpc.len)))
    {
      AwaitSignal();
      var either: bool := *;
      done := s.uploadDone && (either || !s.token);
      if done {
        Inner(Reader(SeeUploadDone));
      } else {
        Inner(Reader(TakeToken));
      }
    }

    /** What a finished Read hands to its caller. */
    ghost predicate Returned(before: State, data: seq<Byte>, err: ReadError)
      reads this
    {
      && s.rpc.Idle? && s.delivered == before.delivered + data
      && match err
         case Nil => s.last == Got(|data|, false) && data != []
         case Eof => s.last == Got(|data|, true) && s.mode.Flushing?
         case Virus => s.last == VirusDetected && data == [] && s.mode.Aborted?
    }

    /** There are counted bytes that the reader has not seen. */
    predicate Unseen()
      reads this
    {
      s.readPos < s.written
    }

    /** Loads the counter and branches on it: is there anything the reader has not seen? */
    method CompareCounter()
      requires Valid() && (s.rpc.OneHead? || s.rpc.OneDone? || s.rpc.FlushHead? || s.rpc.FlushDone?) && s.rpc.len > 0
      modifies this
      ensures Valid() && Since(old(trace)) && Left() < old(Left())
      ensures s.delivered == old(s.delivered) && s.mode == old(s.mode)
      ensures old(s.rpc).OneHead? ==> s.rpc == OneReadAt(old(s.rpc.len)) || (s.rpc == OneWait(old(s.rpc.len)) && !old(Unseen()))
      ensures old(s.rpc).OneDone? ==> s.rpc == OneVerdict(old(s.rpc.len)) || s.rpc == OneHead(old(s.rpc.len))
      ensures old(s.rpc).FlushHead? ==>
        || (s.rpc.FlushReadAt? && s.rpc.len == old(s.rpc.len) && s.rpc.available >= old(s.written) - old(s.readPos))
        || (s.rpc == FlushWait(old(s.rpc.len)) && !old(Unseen()))
      ensures old(s.rpc).FlushDone? ==>
        s.rpc == FlushTail(old(s.rpc.len)) || s.rpc == FlushHead(old(s.rpc.len)) || Returned(old(s), [], Eof)
    {
      WriterRuns();
      if s.rpc.FlushDone? {
        ReachableInv(c, trace);
        assert s.mode.Flushing?;
      }
      Inner(Reader(ReaderStep));
    }

    /** Reads as much as is available, then waits; at the end of the upload it goes on with the tail. */
    method FlushRead(len: nat) returns (data: seq<Byte>, err: ReadError)
      requires Valid() && s.rpc == FlushHead(len) && len > 0
      modifies this
      ensures Valid() && Since(old(trace)) && Left() < old(Left())
      ensures Returned(old(s), data, err) && |data| <= len && !err.Virus? && s.mode.Flushing?
      ensures old(Unseen()) ==> err.Nil? && |data| >= Min(len, old(s.written) - old(s.readPos))
    {
      ReachableInv(c, trace);
      while true
        invariant Valid() && Since(old(trace)) && Left() <= old(Left())
        invariant s.rpc == FlushHead(len) && s.delivered == old(s.delivered) && s.mode.Flushing?
        invariant old(Unseen()) ==> s.readPos == old(s.readPos) && s.written >= old(s.written)
        decreases Left()
      {
        CompareCounter();
        if s.rpc.FlushReadAt? {
          data := ReadFile();
          return data, Nil;
        }
        var done := SelectSignal();
        if done {
          CompareCounter();
          if s.rpc.FlushTail? {
            data, err := ReadUpstream();
            return;
          }
          if s.rpc.Idle? {
            return [], Eof;
          }
        }
      }
    }

    /** ReadAt on the temp file: the counted bytes are there. */
    method ReadFile() returns (data: seq<Byte>)
      requires Valid() && (s.rpc.OneReadAt? || s.rpc.FlushReadAt?)
      modifies this
      ensures Valid() && Since(old(trace)) && Left() < old(Left())
      ensures Returned(old(s), data, Nil) && s.mode == old(s.mode)
      ensures |data| == if old(s.rpc).OneReadAt? then 1 else Min(old(s.rpc.len), old(s.rpc.available))
    {
      WriterRuns();
      ReachableInv(c, trace);
      var n := if s.rpc.OneReadAt? then 1 else Min(s.rpc.len, s.rpc.available);
      data := s.file[s.readPos..s.readPos + n];
      Inner(Reader(ReaderStep));
    }

    /** Read on the body handed over: some of what is left, and end of file no later than with the last. */
    method ReadUpstream() returns (data: seq<Byte>, err: ReadError)
      requires Valid() && s.rpc.FlushTail?
      modifies this
      ensures Valid() && Since(old(trace)) && Left() < old(Left())
      ensures Returned(old(s), data, err) && |data| <= old(s.rpc.len) && !err.Virus? && s.mode == old(s.mode)
    {
      WriterRuns();
      ReachableInv(c, trace);
      var n: nat, eof: bool := *, *;
      if !ReaderEnabled(c, s, ReadTail(n, eof)) {
        n, eof := if s.pos < |c.body| then 1 else 0, s.pos >= |c.body|;
      }
      data := c.body[s.pos..s.pos + n];
      Inner(Reader(ReadTail(n, eof)));
      ReachableInv(c, trace);
      err := if eof then Eof else Nil;
    }

    /** Receives the verdict that is known to be there; an infected one aborts. */
    method TakeVerdict() returns (clean: bool)
      requires Valid() && (s.rpc.Select? || s.rpc.OneVerdict?) && s.result.Some?
      modifies this
      ensures Valid() && Since(old(trace)) && Left() < old(Left()) && s.delivered == old(s.delivered)
      ensures clean == old(s.result.value.clean)
      ensures clean ==> s.rpc == FlushHead(old(s.rpc.len)) && s.mode.Flushing?
      ensures !clean ==> Returned(old(s), [], Virus)
    {
      clean := s.result.value.clean;
      Inner(Reader(ReceiveVerdict));
    }

    /** What a Read returns that has acted on the verdict. */
    predicate Obeys(v: Verdict, data: seq<Byte>, err: ReadError)
      reads this
    {
      if v.clean then s.mode.Flushing? && !err.Virus? else data == [] && err.Virus?
    }

    /** Acts on the verdict that is known to be there: flush or abort. */
    method FlushOrAbort() returns (data: seq<Byte>, err: ReadError)
      requires Valid() && (s.rpc.Select? || s.rpc.OneVerdict?) && s.result.Some? && s.rpc.len > 0
      modifies this
      ensures Valid() && Since(old(trace)) && Left() < old(Left())
      ensures Returned(old(s), data, err) && |data| <= old(s.rpc.len)
      ensures Obeys(old(s.result.value), data, err)
    {
      var len := s.rpc.len;
      var clean := TakeVerdict();
      if clean {
        data, err := FlushRead(len);
      } else {
        data, err := [], Virus;
      }
    }

    /** Reads one byte, spinning until there is one or the upload is done; then the verdict decides. */
    method ReadOne(len: nat) returns (data: seq<Byte>, err: ReadError)
      requires Valid() && s.rpc == OneHead(len) && len > 0
      modifies this
      ensures Valid() && Since(old(trace)) && Left() < old(Left())
      ensures Returned(old(s), data, err) && |data| <= len
      ensures s.mode.Trickling? ==> err.Nil? && |data| == 1
      ensures old(Unseen()) ==> s.mode.Trickling?
    {
      ReachableInv(c, trace);
      while true
        invariant Valid() && Since(old(trace)) && Left() <= old(Left())
        invariant s.rpc == OneHead(len) && s.delivered == old(s.delivered) && s.mode.Trickling?
        invariant old(Unseen()) ==> Unseen()
        decreases Left()
      {
        CompareCounter();
        if s.rpc.OneReadAt? {
          data := ReadFile();
          return data, Nil;
        }
        var done := SelectSignal();
        if done {
          CompareCounter();
          if s.rpc.OneVerdict? {
            ChannelsNeverBlock(c, trace);
            data, err := FlushOrAbort();
            return;
          }
        }
      }
    }

    /** The first select of a trickling Read: the verdict, if it is there, or the timer. The timer was just
        started, so a verdict that was there before it is received; one that comes later may lose. */
    method TrickleRead(len: nat) returns (data: seq<Byte>, err: ReadError)
      requires Valid() && s.rpc.Select? && s.rpc.len == len > 0
      modifies this
      ensures Valid() && Since(old(trace)) && Left() < old(Left())
      ensures Returned(old(s), data, err) && |data| <= len
      ensures s.mode.Trickling? ==> err.Nil? && |data| == 1
      ensures old(s.rpc.ready) ==> old(s.result).Some? && Obeys(old(s.result.value), data, err)
    {
      ReachableInv(c, trace);
      WriterRuns();
      var timeout: bool := false;
      if !s.rpc.ready {
        timeout := *;
      }
      if s.result.Some? && !timeout {
        data, err := FlushOrAbort();
      } else {
        Inner(Reader(TimerFires(INTERVAL)));
        data, err := ReadOne(len);
      }
    }

    /** Read: whatever the writer does meanwhile, the call returns, having handed over exactly the bytes
        by which the delivered prefix grew. Everything that happened is one run of the protocol. A verdict
        that is there when the call begins decides it; a reader let through gets what is available. */
    method Read(len: nat) returns (data: seq<Byte>, err: ReadError)
      requires Valid() && c.cli && s.rpc.Idle? && len > 0
      modifies this
      ensures Valid() && Returned(old(s), data, err) && |data| <= len
      ensures old(trace) + [Reader(CallRead(len))] <= trace && Since(old(trace) + [Reader(CallRead(len))])
      ensures old(s.mode).Aborted? ==> err.Virus?
      ensures old(s.mode).Flushing? ==> !err.Virus? && s.mode.Flushing?
      ensures old(s.mode).Flushing? && old(Unseen()) ==> err.Nil? && |data| >= Min(len, old(s.written) - old(s.readPos))
      ensures old(s.mode).Trickling? && old(s.result).Some? ==> Obeys(old(s.result.value), data, err)
      ensures s.mode.Trickling? ==> err.Nil? && |data| == 1
    {
      var mode := s.mode;
      Step(Reader(CallRead(len)));
      match mode
      case Aborted =>
        data, err := [], Virus;
      case Flushing =>
        data, err := FlushRead(len);
      case Trickling =>
        data, err := TrickleRead(len);
    }

    // The writer: runScan

    /** The reader takes any number of steps. */
    method ReaderRuns()
      requires Valid()
      modifies this
      ensures Valid() && SameForWriter(old(s), s) && old(trace) <= trace && Heard(trace) == Heard(old(trace))
      ensures s.rest.Kept? ==> s.pos == old(s.pos)
    {
      var n: nat := *;
      while n > 0
        invariant Valid() && SameForWriter(old(s), s) && old(trace) <= trace && Heard(trace) == Heard(old(trace))
        invariant s.rest.Kept? ==> s.pos == old(s.pos)
      {
        var a: ReaderAction := *;
        if ReaderEnabled(c, s, a) {
          ReachableInv(c, trace);
          assert a.ReadTail? ==> s.rest.HandedOver?;
          Step(Reader(a));
        }
        n := n - 1;
      }
    }

    /** One statement of the writer, after which the reader may run. */
    method Do(a: WriterAction)
      requires Valid() && WriterEnabled(c, s, a)
      modifies this
      ensures Valid() && old(trace) + [Writer(a)] <= trace && Heard(trace) == Note(Heard(old(trace)), Writer(a))
      ensures SameForWriter(ApplyWriter(c, old(s), a), s)
      ensures s.rest.Kept? ==> s.pos == ApplyWriter(c, old(s), a).pos
    {
      Step(Writer(a));
      ReaderRuns();
    }

    /** The tee forwards the chunk just read: countWriter.Write (file, counter, token), then the hash. */
    method Forward()
      requires Valid() && s.wpc.WriteFile? && s.rest.Kept?
      modifies this
      ensures Valid() && old(trace) <= trace && Heard(trace) == Heard(old(trace))
      ensures s.wpc == Pull(old(s.wpc.copying)) && s.rest.Kept? && s.pos == old(s.pos)
    {
      Do(WriterStep);
      Do(WriterStep);
      Do(WriterStep);
      Do(WriterStep);
    }

    /** The answers heard are the same, except that more may have been pulled if the scan has not failed. */
    ghost predicate PulledSince(before: Answers)
      reads this
    {
      Heard(trace) == before.(pulled := Heard(trace).pulled) && (before.scan == Some(Failed) ==> Heard(trace) == before)
    }

    /** One read of the tee by whoever consumes it, of any size up to where it stops. */
    method PullOnce(goal: nat)
      requires Valid() && s.wpc.Pull? && s.rest.Kept? && s.pos < goal <= |c.body| && goal <= Limit(c)
      modifies this
      ensures Valid() && old(trace) <= trace && PulledSince(old(Heard(trace)))
      ensures s.wpc == old(s.wpc) && s.rest.Kept? && old(s.pos) < s.pos <= goal
    {
      var n: nat := *;
      if n < 1 || s.pos + n > goal {
        n := 1;
      }
      Do(PullChunk(n));
      Forward();
    }

    /** Reads the tee up to the goal. */
    method PullUpTo(goal: nat)
      requires Valid() && s.wpc.Pull? && s.rest.Kept? && s.pos <= goal <= |c.body| && goal <= Limit(c)
      modifies this
      ensures Valid() && old(trace) <= trace && PulledSince(old(Heard(trace)))
      ensures s.wpc == old(s.wpc) && s.rest.Kept? && s.pos == goal
    {
      while s.pos < goal
        invariant Valid() && old(trace) <= trace && PulledSince(old(Heard(trace)))
        invariant s.wpc == old(s.wpc) && s.rest.Kept? && s.pos <= goal
        decreases goal - s.pos
      {
        PullOnce(goal);
      }
    }

    /** What the limited reader has to give in all. */
    function Offered(): nat {
      if |c.body| < Limit(c) then |c.body| else Limit(c)
    }

    /** io.Copy of the tee into nowhere. */
    method CopyTee()
      requires Valid() && s.wpc.Pull? && s.rest.Kept?
      modifies this
      ensures Valid() && old(trace) <= trace && PulledSince(old(Heard(trace)))
      ensures s.wpc == old(s.wpc) && s.rest.Kept? && Exhausted(c, s) && s.pos == Offered()
    {
      ReachableInv(c, trace);
      PullUpTo(Offered());
    }

    /** How far the scanner reads. */
    function ScannerReads(env: Surroundings): nat {
      if env.reply.Failed? && env.consumed < Offered() then env.consumed else Offered()
    }

    /** The scanner reads the tee as far as it does and answers; its answer is what the size check goes on
        with. */
    method ScanTee(env: Surroundings)
      requires Valid() && s.wpc == Pull(Scan) && s.rest.Kept? && s.pos == 0
      modifies this
      ensures Valid() && old(trace) <= trace
      ensures s.wpc == CheckSize(Scanned(env.reply)) && s.rest.Kept?
      ensures Heard(trace) == old(Heard(trace)).(scan := Some(env.reply), pulled := ScannerReads(env))
    {
      PullUpTo(ScannerReads(env));
      ReachableRemembers(c, trace);
      Do(ScanReturns(env.reply));
    }

    function IfCaching(hit: Option<Finding>): Option<Finding> {
      if c.caching then hit else None
    }

    /** The URL cache path buffers the body without scanning; otherwise the scanner reads it. */
    method BufferBody(env: Surroundings)
      requires Valid() && s.wpc.LookupUrl? && s.rest.Kept?
      modifies this
      ensures Valid() && old(trace) <= trace
      ensures s.wpc.CheckSize? && s.rest.Kept?
      ensures Heard(trace) == old(Heard(trace)).(
        url := IfCaching(env.url),
        scan := if IfCaching(env.url).Some? then None else Some(env.reply),
        pulled := if IfCaching(env.url).Some? then Offered() else ScannerReads(env))
    {
      ReachableRemembers(c, trace);
      var hit := None;
      if c.caching {
        hit := env.url;
      }
      Do(UrlAnswer(hit));
      if hit.Some? {
        CopyTee();
        ReachableRemembers(c, trace);
        Do(CopyEnds);
      } else {
        ScanTee(env);
      }
    }

    /** The hash lookup that ends both paths, with the store that ends the scanning one. */
    method MergeWithCache(env: Surroundings)
      requires Valid() && s.wpc.LookupHash?
      modifies this
      ensures Valid() && old(trace) <= trace && s.wpc.Publish?
      ensures Heard(trace) == old(Heard(trace)).(hash := Some(IfCaching(env.hash)))
    {
      var cached := None;
      if c.caching {
        cached := env.hash;
      }
      Do(HashAnswer(cached));
      if s.wpc.StoreFinding? {
        Do(WriterStep);
      }
    }

    /** After a failed scan the rest of the body is still buffered. */
    method DrainTee()
      requires Valid() && s.wpc == Pull(Drain) && s.rest.Kept?
      modifies this
      ensures Valid() && old(trace) <= trace && s.wpc.Publish? && Heard(trace) == old(Heard(trace))
    {
      ReachableRemembers(c, trace);
      CopyTee();
      Do(CopyEnds);
    }

    /** The size check, which decides among three ways on: oversize, failed scan, finding. */
    method CompareSize()
      requires Valid() && s.wpc.CheckSize? && s.rest.Kept?
      modifies this
      ensures Valid() && old(trace) <= trace && Heard(trace) == old(Heard(trace))
      ensures s.wpc.Handover? || ((s.wpc == Pull(Drain) || s.wpc.LookupHash?) && s.rest.Kept?)
    {
      Do(WriterStep);
    }

    /** Hands the rest of an oversize body over to the reader. */
    method HandOver()
      requires Valid() && s.wpc.Handover?
      modifies this
      ensures Valid() && old(trace) <= trace && s.wpc.Publish? && Heard(trace) == old(Heard(trace))
    {
      assert ApplyWriter(c, s, WriterStep).wpc == PassThrough(TooLarge);
      Do(WriterStep);
    }

    /** The size check and what follows from it, up to the publication of a result. */
    method Examine(env: Surroundings)
      requires Valid() && s.wpc.CheckSize? && s.rest.Kept?
      modifies this
      ensures Valid() && old(trace) <= trace && s.wpc.Publish?
      ensures Heard(trace) == old(Heard(trace)).(
        hash := if Passes(c, old(Heard(trace))) then Some(IfCaching(env.hash)) else None)
      ensures Justified(c, Heard(trace), s.wpc.finding.status)
      ensures Announces(Heard(trace), s.wpc.finding.status, s.wpc.finding.threat, s.wpc.verdict)
    {
      ReachableRemembers(c, trace);
      CompareSize();
      ReachableRemembers(c, trace);
      if s.wpc.Handover? {
        HandOver();
      } else if s.wpc.Pull? {
        DrainTee();
      } else {
        MergeWithCache(env);
      }
      ReachableRemembers(c, trace);
    }

    /** The end of every path: set the job's result, send the verdict, then the deferred closes. */
    method Finish()
      requires Valid() && s.wpc.Publish?
      modifies this
      ensures Valid() && old(trace) <= trace && s.wpc.Done? && Heard(trace) == old(Heard(trace))
    {
      Do(WriterStep);
      ChannelsNeverBlock(c, trace);
      Do(WriterStep);
      Do(WriterStep);
      Do(WriterStep);
    }

    /** What the writer hears on its way in these surroundings. */
    function Hears(env: Surroundings): Answers {
      if !env.opens then NOTHING.(fileOpened := Some(false))
      else
        var h := if IfCaching(env.url).Some? then Answers(Some(true), IfCaching(env.url), None, None, Offered())
                 else Answers(Some(true), None, Some(env.reply), None, ScannerReads(env));
        h.(hash := if Passes(c, h) then Some(IfCaching(env.hash)) else None)
    }

    /** runScan finishes, whatever the reader does. The job then has a final status and has sent the one
        verdict that goes with it; a clean or infected job has its whole body in the temp file; the upload is
        marked done, and the body is open exactly if it was handed over. Status, verdict and cached finding
        are those the surroundings call for. */
    method RunScan(env: Surroundings)
      requires Valid() && s.wpc.Open?
      modifies this
      ensures Valid() && old(trace) <= trace && s.wpc.Done? && s.uploadDone
      ensures Terminal(s.status) && s.sent.Some? && (s.sent.value.clean <==> s.status != Infected)
      ensures s.status == Clean || s.status == Infected ==> s.file == c.body
      ensures s.bodyOpen <==> s.rest.HandedOver?
      ensures Heard(trace) == Hears(env)
      ensures Justified(c, Hears(env), s.status) && Announces(Hears(env), s.status, s.threat, s.sent.value)
      ensures SavesDeciding(c, Hears(env), s.saved)
    {
      ReachableRemembers(c, trace);
      Do(OpenFile(env.opens));
      if env.opens {
        Do(WriterStep);
        ReachableRemembers(c, trace);
        BufferBody(env);
        Examine(env);
      }
      Finish();
      ReachableInv(c, trace);
      FinishedJob(c, trace);
      JobOutcome(c, trace);
    }
  }
}
