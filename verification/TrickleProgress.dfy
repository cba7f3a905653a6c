/** Progress of the scan/trickle protocol: no lost wakeup, no deadlock, and every Read returns. */
module TrickleProgress {
  import opened Verdicts
  import opened TrickleProtocol
  import opened TrickleInvariant
  import opened TrickleSafety

  /** An action that belongs to a Read already under way, or to the writer. */
  predicate Internal(a: Action) {
    !(a.Reader? && a.r.CallRead?)
  }

  predicate AllInternal(acts: seq<Action>) {
    forall i :: 0 <= i < |acts| ==> Internal(acts[i])
  }

  /** The writer action that is due; nondeterminism is resolved towards the shortest way out. */
  function NextWriter(c: Config, s: State): (a: WriterAction)
    requires Inv(c, s) && !s.wpc.Done?
    ensures WriterEnabled(c, s, a)
  {
    match s.wpc
    case Open => OpenFile(true)
    case LookupUrl => UrlAnswer(None)
    case Pull(k) => if !Exhausted(c, s) then PullChunk(1) else if k.Scan? then ScanReturns(Failed) else CopyEnds
    case LookupHash(_, _) => HashAnswer(None)
    case _ => WriterStep
  }

  /** No deadlock: while a Read is under way, some process can act. */
  function NextAction(c: Config, s: State): (a: Action)
    requires Inv(c, s) && !s.rpc.Idle?
    ensures Enabled(c, s, a) && Internal(a)
  {
    match s.rpc
    case Select(_, ready) => Reader(if ready then ReceiveVerdict else TimerFires(INTERVAL))
    case OneVerdict(_) => Reader(ReceiveVerdict)
    case FlushTail(_) => Reader(if s.pos < |c.body| then ReadTail(1, false) else ReadTail(0, true))
    case OneWait(_) => if s.token then Reader(TakeToken) else if s.uploadDone then Reader(SeeUploadDone) else Writer(NextWriter(c, s))
    case FlushWait(_) => if s.token then Reader(TakeToken) else if s.uploadDone then Reader(SeeUploadDone) else Writer(NextWriter(c, s))
    case _ => Reader(ReaderStep)
  }

  /** No lost wakeup: a reader that waits although counted bytes are unseen can go on by itself, unless
      the writer is just about to post the token. */
  lemma NoLostWakeup(c: Config, acts: seq<Action>)
    requires Runs(c, acts)
    ensures var s := After(c, acts);
      (s.rpc.OneWait? || s.rpc.FlushWait?) && s.readPos < s.written && !s.wpc.SendToken? ==>
        ReaderEnabled(c, s, TakeToken) || ReaderEnabled(c, s, SeeUploadDone)
  {
    ReachableInv(c, acts);
  }

  // The ranking measure

  function CopyRank(k: Copying): nat {
    if k.Drain? then 10 else 16
  }

  /** Steps left at each place if nothing more is read from the body. */
  function PlaceRank(wpc: WriterPc): nat {
    match wpc
    case Open => 19
    case MarkScanning => 18
    case LookupUrl => 17
    case Pull(k) => CopyRank(k)
    case WriteFile(k) => CopyRank(k) + 4
    case AddCount(k) => CopyRank(k) + 3
    case SendToken(k) => CopyRank(k) + 2
    case WriteHash(k) => CopyRank(k) + 1
    case CheckSize(_) => 12
    case Handover => 5
    case LookupHash(_, _) => 6
    case StoreFinding(_) => 5
    case Publish(_, _) => 4
    case SendVerdict(_) => 3
    case CloseUpload => 2
    case CloseBody => 1
    case Done => 0
  }

  function WriterRank(c: Config, s: State): nat
    requires s.pos <= |c.body|
  {
    6 * (|c.body| - s.pos) + PlaceRank(s.wpc)
  }

  /** Steps left in the current Read if nothing else happens; it depends on whether bytes are unseen. */
  function ReaderRank(s: State): nat {
    var unseen := s.readPos < s.written;
    match s.rpc
    case Idle => 0
    case FlushTail(_) => 1
    case FlushReadAt(_, _) => 1
    case FlushHead(_) => if unseen then 2 else 4
    case FlushWait(_) => if unseen then 4 else 3
    case FlushDone(_) => if unseen then 3 else 2
    case OneReadAt(_) => 5
    case OneVerdict(_) => 5
    case OneHead(_) => if unseen then 6 else 8
    case OneWait(_) => if unseen then 8 else 7
    case OneDone(_) => if unseen then 7 else 6
    case Select(_, _) => 9
  }

  function Rank(c: Config, s: State): nat
    requires s.pos <= |c.body|
  {
    40 * WriterRank(c, s) + (if s.token then 20 else 0) + ReaderRank(s)
  }

  lemma ForwardingDecreases(c: Config, s: State)
    requires s.pos <= |c.body| && WriterStepReady(s) && InCopy(s.wpc)
    ensures DoWriterStep(c, s).pos <= |c.body|
    ensures WriterRank(c, DoWriterStep(c, s)) < WriterRank(c, s)
  {
  }

  lemma DecidingDecreases(c: Config, s: State)
    requires s.pos <= |c.body| && (s.wpc.MarkScanning? || s.wpc.CheckSize? || s.wpc.Handover? || s.wpc.StoreFinding?)
    ensures DoWriterStep(c, s).pos <= |c.body|
    ensures WriterRank(c, DoWriterStep(c, s)) < WriterRank(c, s)
  {
  }

  lemma ClosingDecreases(c: Config, s: State)
    requires s.pos <= |c.body| && WriterStepReady(s)
    requires s.wpc.Publish? || s.wpc.SendVerdict? || s.wpc.CloseUpload? || s.wpc.CloseBody?
    ensures DoWriterStep(c, s).pos <= |c.body|
    ensures WriterRank(c, DoWriterStep(c, s)) < WriterRank(c, s)
  {
  }

  lemma WriterStepDecreases(c: Config, s: State)
    requires s.pos <= |c.body| && WriterStepReady(s)
    ensures DoWriterStep(c, s).pos <= |c.body|
    ensures WriterRank(c, DoWriterStep(c, s)) < WriterRank(c, s)
  {
    if InCopy(s.wpc) {
      ForwardingDecreases(c, s);
    } else if s.wpc.MarkScanning? || s.wpc.CheckSize? || s.wpc.Handover? || s.wpc.StoreFinding? {
      DecidingDecreases(c, s);
    } else {
      ClosingDecreases(c, s);
    }
  }

  lemma CopyingDecreases(c: Config, s: State, a: WriterAction)
    requires s.pos <= |c.body| && WriterEnabled(c, s, a) && (a.PullChunk? || a.CopyEnds? || a.ScanReturns?)
    ensures ApplyWriter(c, s, a).pos <= |c.body|
    ensures WriterRank(c, ApplyWriter(c, s, a)) < WriterRank(c, s)
  {
    if !a.PullChunk? {
      assert PlaceRank(ApplyWriter(c, s, a).wpc) < PlaceRank(s.wpc);
    }
  }

  lemma AnswerDecreases(c: Config, s: State, a: WriterAction)
    requires s.pos <= |c.body| && WriterEnabled(c, s, a) && (a.OpenFile? || a.UrlAnswer? || a.HashAnswer?)
    ensures ApplyWriter(c, s, a).pos <= |c.body|
    ensures WriterRank(c, ApplyWriter(c, s, a)) < WriterRank(c, s)
  {
    assert PlaceRank(ApplyWriter(c, s, a).wpc) < PlaceRank(s.wpc);
  }

  lemma WriterDecreases(c: Config, s: State, a: WriterAction)
    requires s.pos <= |c.body| && WriterEnabled(c, s, a)
    ensures ApplyWriter(c, s, a).pos <= |c.body|
    ensures WriterRank(c, ApplyWriter(c, s, a)) < WriterRank(c, s)
  {
    if a.WriterStep? {
      WriterStepDecreases(c, s);
    } else if a.PullChunk? || a.CopyEnds? || a.ScanReturns? {
      CopyingDecreases(c, s, a);
    } else {
      AnswerDecreases(c, s, a);
    }
  }

  lemma ReaderStepDecreases(c: Config, s: State)
    requires ReaderControl(c, s) && s.written <= |s.file| && ReaderStepReady(s)
    ensures ReaderRank(DoReaderStep(s)) < ReaderRank(s) && DoReaderStep(s).token == s.token
  {
    if s.rpc.FlushReadAt? || s.rpc.OneReadAt? {
      assert DoReaderStep(s).rpc.Idle?;
    }
  }

  lemma SelectDecreases(c: Config, s: State, a: ReaderAction)
    requires s.pos <= |c.body| && ReaderEnabled(c, s, a) && (a.TimerFires? || a.TakeToken? || a.SeeUploadDone?)
    ensures ApplyReader(c, s, a).pos <= |c.body|
    ensures Rank(c, ApplyReader(c, s, a)) < Rank(c, s)
  {
  }

  lemma ReaderDecreases(c: Config, s: State, a: ReaderAction)
    requires Inv(c, s) && ReaderEnabled(c, s, a) && !a.CallRead?
    ensures ApplyReader(c, s, a).pos <= |c.body|
    ensures Rank(c, ApplyReader(c, s, a)) < Rank(c, s)
  {
    if a.ReaderStep? {
      ReaderStepDecreases(c, s);
    } else if a.TimerFires? || a.TakeToken? || a.SeeUploadDone? {
      SelectDecreases(c, s, a);
    }
  }

  lemma InternalDecreases(c: Config, s: State, a: Action)
    requires Inv(c, s) && Enabled(c, s, a) && Internal(a)
    ensures Inv(c, Apply(c, s, a)) && Rank(c, Apply(c, s, a)) < Rank(c, s)
  {
    StepKeepsInv(c, s, a);
    match a
    case Writer(w) => WriterDecreases(c, s, w);
    case Reader(r) => ReaderDecreases(c, s, r);
  }

  lemma {:induction false} InternalRunIsShort(c: Config, s: State, more: seq<Action>)
    requires Inv(c, s) && IsRun(c, s, more) && AllInternal(more)
    ensures Inv(c, Exec(c, s, more))
    ensures |more| + Rank(c, Exec(c, s, more)) <= Rank(c, s)
    decreases |more|
  {
    if more != [] {
      assert Internal(more[0]);
      InternalDecreases(c, s, more[0]);
      InternalRunIsShort(c, Apply(c, s, more[0]), more[1..]);
    }
  }

  /** Every Read returns under every scheduling, fair or not: until the next Read is called only Rank
      many actions can happen, and the processes cannot stop before the Read under way has returned. */
  lemma EveryReadReturns(c: Config, acts: seq<Action>, more: seq<Action>)
    requires Runs(c, acts) && IsRun(c, After(c, acts), more) && AllInternal(more)
    ensures After(c, acts).pos <= |c.body| && |more| <= Rank(c, After(c, acts))
    ensures (forall a | Internal(a) :: !Enabled(c, Exec(c, After(c, acts), more), a)) ==>
      Exec(c, After(c, acts), more).rpc.Idle? && Exec(c, After(c, acts), more).wpc.Done?
  {
    ReachableInv(c, acts);
    InternalRunIsShort(c, After(c, acts), more);
    var t := Exec(c, After(c, acts), more);
    if !t.rpc.Idle? {
      assert Internal(NextAction(c, t)) && Enabled(c, t, NextAction(c, t));
    } else if !t.wpc.Done? {
      assert Internal(Writer(NextWriter(c, t))) && Enabled(c, t, Writer(NextWriter(c, t)));
    }
  }
}
