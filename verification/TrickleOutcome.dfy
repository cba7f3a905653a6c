/** Which status a job ends with, in terms of what its surroundings answered: the file system, the
    scanner and the two caches. The answers are read off the actions of the run. */
module TrickleOutcome {
  import opened Verdicts
  import opened TrickleProtocol
  import opened TrickleInvariant
  import opened TrickleSafety

  /** What the writer was told, and how many bytes it had pulled from the limited reader when the size
      was checked (the bytes drained after a failed scan do not count). */
  datatype Answers = Answers(
    fileOpened: Option<bool>,
    url: Option<Finding>,           // the URL hit, if there was one
    scan: Option<ScanReply>,
    hash: Option<Option<Finding>>,  // the hash lookup, once made, and its hit, if there was one
    pulled: nat)

  const NOTHING := Answers(None, None, None, None, 0)

  function Note(h: Answers, a: Action): Answers {
    match a
    case Writer(OpenFile(ok)) => h.(fileOpened := Some(ok))
    case Writer(UrlAnswer(hit)) => h.(url := hit)
    case Writer(ScanReturns(reply)) => h.(scan := Some(reply))
    case Writer(HashAnswer(hit)) => h.(hash := Some(hit))
    case Writer(PullChunk(n)) => if h.scan == Some(Failed) then h else h.(pulled := h.pulled + n)
    case _ => h
  }

  function NoteAll(h: Answers, acts: seq<Action>): Answers
    decreases |acts|
  {
    if acts == [] then h else NoteAll(Note(h, acts[0]), acts[1..])
  }

  function Heard(acts: seq<Action>): Answers {
    NoteAll(NOTHING, acts)
  }

  lemma {:induction false} NoteLast(h: Answers, acts: seq<Action>, a: Action)
    ensures NoteAll(h, acts + [a]) == Note(NoteAll(h, acts), a)
    decreases |acts|
  {
    if acts == [] {
      assert [a][1..] == [];
    } else {
      assert (acts + [a])[1..] == acts[1..] + [a];
      NoteLast(Note(h, acts[0]), acts[1..], a);
    }
  }

  /** The job gets as far as a finding: file opened, limit not exceeded, scan not failed. */
  predicate Passes(c: Config, h: Answers) {
    h.fileOpened == Some(true) && h.pulled <= c.maxSize && h.scan != Some(Failed)
  }

  /** What the scanner said or, in its place, the URL tier. */
  function Source(h: Answers): Finding {
    match (h.url, h.scan)
    case (Some(f), _) => f
    case (None, Some(Reply(clean, threat))) => Finding(if clean then Clean else Infected, threat)
    case _ => Finding(Pending, "")
  }

  predicate HashInfected(h: Answers) {
    h.hash.Some? && h.hash.value.Some? && h.hash.value.value.status == Infected
  }

  /** The finding that decides: the hash tier's if it alone says infected. */
  function Deciding(h: Answers): Finding {
    if HashInfected(h) && Source(h).status != Infected then h.hash.value.value else Source(h)
  }

  /** The final status is the one the answers call for, case by case. */
  predicate Justified(c: Config, h: Answers, status: ScanStatus) {
    && (status == Clean <==> Passes(c, h) && Source(h).status == Clean && !HashInfected(h))
    && (status == Infected <==> Passes(c, h) && (Source(h).status != Clean || HashInfected(h)))
    && (status == TooLarge <==> h.fileOpened == Some(true) && h.pulled > c.maxSize)
    && (status == Error <==>
        h.fileOpened == Some(false) || (h.fileOpened == Some(true) && h.pulled <= c.maxSize && h.scan == Some(Failed)))
    && (Passes(c, h) ==> h.hash.Some? && (h.url.Some? || h.scan.Some?))
  }

  /** The verdict lets the client have the body unless the job is infected; an infected job names the deciding
      threat, and so does the verdict of every job that got as far as a finding. */
  predicate Announces(h: Answers, status: ScanStatus, threat: string, v: Verdict) {
    && (v.clean <==> status != Infected)
    && threat == (if status == Infected then Deciding(h).threat else "")
    && v.threat == (if Cacheable(status) then Deciding(h).threat else "")
  }

  /** The result cache gets the deciding finding of a scanned job, and nothing from any other. */
  predicate SavesDeciding(c: Config, h: Answers, saved: Option<Saved>) {
    && (saved.Some? <==> c.caching && Passes(c, h) && h.url.None?)
    && (saved.Some? ==> saved.value.finding == Deciding(h))
  }

  predicate Before(wpc: WriterPc) {
    wpc.Open? || wpc.MarkScanning? || wpc.LookupUrl?
  }

  /** On whose behalf the tee is read is what the URL tier and the scanner answered. */
  predicate CopyFits(h: Answers, k: Copying) {
    match k
    case CacheCopy(url) => h.url == Some(url) && h.scan.None?
    case Scan => h.url.None? && h.scan.None?
    case Drain => h.url.None? && h.scan == Some(Failed)
  }

  predicate AfterFits(h: Answers, after: AfterCopy) {
    match after
    case Cached(url) => h.url == Some(url) && h.scan.None?
    case Scanned(reply) => h.url.None? && h.scan == Some(reply)
  }

  /** How the writer's program point and its history fields agree with what it heard. */
  predicate Remembers(c: Config, s: State, h: Answers) {
    && (s.wpc.Open? <==> h.fileOpened.None?)
    && (s.openOk <==> h.fileOpened == Some(true))
    && s.failedAt == (if h.scan == Some(Failed) then Some(h.pulled) else None)
    && (s.rest.Kept? && h.scan != Some(Failed) ==> h.pulled == s.pos)
    && (Before(s.wpc) ==> h == NOTHING.(fileOpened := h.fileOpened))
    && (InCopy(s.wpc) || s.wpc.CheckSize? || s.wpc.LookupHash? ==> h.hash.None?)
    && (InCopy(s.wpc) ==> CopyFits(h, s.wpc.copying))
    && (s.wpc.CheckSize? ==> AfterFits(h, s.wpc.after))
    && (s.wpc.Handover? ==> h.pulled > c.maxSize)
    && (s.wpc.LookupHash? ==> Passes(c, h) && s.wpc.base == Source(h) && (s.wpc.save <==> h.url.None?))
    && (s.wpc.LookupHash? ==> h.url.Some? || h.scan.Some?)
    && (s.wpc.StoreFinding? ==> Passes(c, h) && h.url.None? && h.scan.Some? && h.hash.Some? && s.wpc.finding == Deciding(h))
    && (s.wpc.Publish? ==>
      Justified(c, h, s.wpc.finding.status) && Announces(h, s.wpc.finding.status, s.wpc.finding.threat, s.wpc.verdict))
    && (s.wpc.SendVerdict? ==> Justified(c, h, s.status) && Announces(h, s.status, s.threat, s.wpc.verdict))
    && (AfterSend(s.wpc) ==> Justified(c, h, s.status) && s.sent.Some? && Announces(h, s.status, s.threat, s.sent.value))
    && (if s.wpc.Publish? || s.wpc.SendVerdict? || AfterSend(s.wpc) then SavesDeciding(c, h, s.saved) else s.saved.None?)
  }

  lemma CopyStepRemembers(c: Config, s: State, h: Answers)
    requires Inv(c, s) && Remembers(c, s, h) && WriterStepReady(s) && (InCopy(s.wpc) || s.wpc.MarkScanning?)
    ensures Remembers(c, DoWriterStep(c, s), h)
  {
  }

  lemma CheckSizeRemembers(c: Config, s: State, h: Answers)
    requires Inv(c, s) && Remembers(c, s, h) && s.wpc.CheckSize?
    ensures Remembers(c, DoWriterStep(c, s), h)
  {
    assert h.pulled == s.written;
  }

  lemma DecidingStepRemembers(c: Config, s: State, h: Answers)
    requires Inv(c, s) && Remembers(c, s, h) && (s.wpc.Handover? || s.wpc.StoreFinding?)
    ensures Remembers(c, DoWriterStep(c, s), h)
  {
  }

  lemma ClosingStepRemembers(c: Config, s: State, h: Answers)
    requires Inv(c, s) && Remembers(c, s, h) && WriterStepReady(s)
    requires s.wpc.Publish? || s.wpc.SendVerdict? || AfterSend(s.wpc)
    ensures Remembers(c, DoWriterStep(c, s), h)
  {
  }

  lemma WriterStepRemembers(c: Config, s: State, h: Answers)
    requires Inv(c, s) && Remembers(c, s, h) && WriterStepReady(s)
    ensures Remembers(c, DoWriterStep(c, s), h)
  {
    if s.wpc.CheckSize? {
      CheckSizeRemembers(c, s, h);
    } else if s.wpc.Handover? || s.wpc.StoreFinding? {
      DecidingStepRemembers(c, s, h);
    } else if s.wpc.Publish? || s.wpc.SendVerdict? || AfterSend(s.wpc) {
      ClosingStepRemembers(c, s, h);
    } else {
      CopyStepRemembers(c, s, h);
    }
  }

  lemma CopyAnswerRemembers(c: Config, s: State, h: Answers, a: WriterAction)
    requires Inv(c, s) && Remembers(c, s, h) && WriterEnabled(c, s, a)
    requires a.PullChunk? || a.CopyEnds? || a.ScanReturns?
    ensures Remembers(c, ApplyWriter(c, s, a), Note(h, Writer(a)))
  {
  }

  lemma LookupAnswerRemembers(c: Config, s: State, h: Answers, a: WriterAction)
    requires Inv(c, s) && Remembers(c, s, h) && WriterEnabled(c, s, a)
    requires a.OpenFile? || a.UrlAnswer? || a.HashAnswer?
    ensures Remembers(c, ApplyWriter(c, s, a), Note(h, Writer(a)))
  {
  }

  lemma WriterRemembers(c: Config, s: State, h: Answers, a: WriterAction)
    requires Inv(c, s) && Remembers(c, s, h) && WriterEnabled(c, s, a)
    ensures Remembers(c, ApplyWriter(c, s, a), Note(h, Writer(a)))
  {
    if a.WriterStep? {
      WriterStepRemembers(c, s, h);
    } else if a.PullChunk? || a.CopyEnds? || a.ScanReturns? {
      CopyAnswerRemembers(c, s, h, a);
    } else {
      LookupAnswerRemembers(c, s, h, a);
    }
  }

  lemma StepRemembers(c: Config, s: State, h: Answers, a: Action)
    requires Inv(c, s) && Remembers(c, s, h) && Enabled(c, s, a)
    ensures Remembers(c, Apply(c, s, a), Note(h, a))
  {
    match a
    case Writer(w) => WriterRemembers(c, s, h, w);
    case Reader(r) =>
      assert SameForWriter(s, ApplyReader(c, s, r));
      assert r.ReadTail? ==> s.rest.HandedOver?;
  }

  lemma {:induction false} RunRemembers(c: Config, s: State, h: Answers, acts: seq<Action>)
    requires Inv(c, s) && Remembers(c, s, h) && IsRun(c, s, acts)
    ensures Remembers(c, Exec(c, s, acts), NoteAll(h, acts))
    decreases |acts|
  {
    if acts != [] {
      StepRemembers(c, s, h, acts[0]);
      StepKeepsInv(c, s, acts[0]);
      RunRemembers(c, Apply(c, s, acts[0]), Note(h, acts[0]), acts[1..]);
    }
  }

  lemma ReachableRemembers(c: Config, acts: seq<Action>)
    requires Runs(c, acts)
    ensures Inv(c, After(c, acts)) && Remembers(c, After(c, acts), Heard(acts))
  {
    InitEstablishes(c);
    ReachableInv(c, acts);
    RunRemembers(c, Init(), NOTHING, acts);
  }

  /** The status of every job, as soon as it is final, is the one its answers call for; the verdict and
      what goes into the result cache agree with it. */
  lemma JobOutcome(c: Config, acts: seq<Action>)
    requires Runs(c, acts) && Terminal(After(c, acts).status)
    ensures var s, h := After(c, acts), Heard(acts);
      && Justified(c, h, s.status)
      && (s.sent.Some? ==> Announces(h, s.status, s.threat, s.sent.value))
      && SavesDeciding(c, h, s.saved)
  {
    ReachableRemembers(c, acts);
  }

  /** Unless the scan failed, the limit is exceeded exactly if the body is longer than the limit. */
  lemma OversizeMeansBody(c: Config, acts: seq<Action>)
    requires Runs(c, acts) && Terminal(After(c, acts).status)
    requires Heard(acts).fileOpened == Some(true) && Heard(acts).scan != Some(Failed)
    ensures Heard(acts).pulled > c.maxSize <==> |c.body| > c.maxSize
  {
    ReachableRemembers(c, acts);
  }

  // Content known to be infected

  lemma {:induction false} HashWasAsked(h: Answers, acts: seq<Action>)
    ensures NoteAll(h, acts).hash == h.hash
         || (NoteAll(h, acts).hash.Some? && Writer(HashAnswer(NoteAll(h, acts).hash.value)) in acts)
    decreases |acts|
  {
    if acts != [] {
      HashWasAsked(Note(h, acts[0]), acts[1..]);
    }
  }

  /** Every hash lookup of the run finds an infected entry. */
  predicate HashSaysInfected(acts: seq<Action>) {
    forall a :: a in acts && a.Writer? && a.w.HashAnswer? ==> a.w.hit.Some? && a.w.hit.value.status == Infected
  }

  /** If the hash tier says infected, the job ends infected if and only if it gets as far as asking. If
      the file cannot be opened, the limit is exceeded or the scan fails, the verdict lets the body pass. */
  lemma InfectedIfAsked(c: Config, acts: seq<Action>)
    requires Runs(c, acts) && Terminal(After(c, acts).status) && HashSaysInfected(acts)
    ensures After(c, acts).status == Infected <==> Passes(c, Heard(acts))
    ensures After(c, acts).sent.Some? ==> (After(c, acts).sent.value.clean <==> !Passes(c, Heard(acts)))
  {
    JobOutcome(c, acts);
    HashWasAsked(NOTHING, acts);
  }
}
