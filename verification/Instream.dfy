/** clamd's INSTREAM protocol: length-prefixed chunks ended by an empty one, and the one-line answer. */
module Instream {
  import opened Verdicts
  import opened Text

  const BUFFER_SIZE := 4096

  // The wire format

  /** The low eight bits of a number. */
  function LowByte(n: nat): Byte {
    n % 0x100
  }

  function BigEndian(n: nat): seq<Byte>
    requires n < 0x1_0000_0000
  {
    [LowByte(n / 0x100_0000), LowByte(n / 0x1_0000), LowByte(n / 0x100), LowByte(n)]
  }

  function FromBigEndian(b: seq<Byte>): nat
    requires |b| == 4
  {
    b[0] as int * 0x100_0000 + b[1] as int * 0x1_0000 + b[2] as int * 0x100 + b[3] as int
  }

  lemma BigEndianRoundTrip(n: nat)
    requires n < 0x1_0000_0000
    ensures FromBigEndian(BigEndian(n)) == n
  {
    assert n / 0x1_0000 == n / 0x100 / 0x100 && n / 0x100_0000 == n / 0x1_0000 / 0x100;
    assert n / 0x100_0000 < 0x100;
  }

  /** What one call of Read hands over, and whether it is the last. */
  datatype Outcome = More | Eof | Broken
  datatype ReadStep = ReadStep(data: seq<Byte>, outcome: Outcome)

  /** A reader fills at most the buffer it is given. */
  predicate Fits(script: seq<ReadStep>) {
    forall i :: 0 <= i < |script| ==> |script[i].data| <= BUFFER_SIZE
  }

  /** How the reader ends; a script that runs out ends in end of file. */
  function Ending(script: seq<ReadStep>): Outcome {
    if script == [] then Eof
    else if script[0].outcome.More? then Ending(script[1..])
    else script[0].outcome
  }

  /** Everything the reader hands over before it ends. */
  function Content(script: seq<ReadStep>): seq<Byte> {
    if script == [] then []
    else script[0].data + (if script[0].outcome.More? then Content(script[1..]) else [])
  }

  function Frame(data: seq<Byte>): seq<Byte>
    requires |data| <= BUFFER_SIZE
  {
    if data == [] then [] else BigEndian(|data|) + data
  }

  function Frames(script: seq<ReadStep>): seq<Byte>
    requires Fits(script)
  {
    if script == [] then []
    else Frame(script[0].data) + (if script[0].outcome.More? then Frames(script[1..]) else [])
  }

  const TERMINATOR: seq<Byte> := [0, 0, 0, 0]

  function Encode(script: seq<ReadStep>): seq<Byte>
    requires Fits(script)
  {
    Frames(script) + TERMINATOR
  }

  /** The receiving end: chunks up to the empty one, and what follows. */
  function Decode(s: seq<Byte>): Option<(seq<Byte>, seq<Byte>)>
    decreases |s|
  {
    if |s| < 4 then None
    else
      var n := FromBigEndian(s[..4]);
      if n == 0 then Some(([], s[4..]))
      else if |s| < 4 + n then None
      else
        var more := Decode(s[4 + n..]);
        if more.None? then None else Some((s[4..4 + n] + more.value.0, more.value.1))
  }

  lemma DecodeFrame(data: seq<Byte>, rest: seq<Byte>)
    requires 0 < |data| <= BUFFER_SIZE
    ensures Decode(Frame(data) + rest) ==
      if Decode(rest).None? then None else Some((data + Decode(rest).value.0, Decode(rest).value.1))
  {
    var s := Frame(data) + rest;
    BigEndianRoundTrip(|data|);
    assert s[..4] == BigEndian(|data|) && s[4..4 + |data|] == data && s[4 + |data|..] == rest;
  }

  lemma DecodeTerminator(tail: seq<Byte>)
    ensures Decode(TERMINATOR + tail) == Some(([], tail))
  {
    assert (TERMINATOR + tail)[..4] == TERMINATOR && (TERMINATOR + tail)[4..] == tail;
  }

  /** One frame, empty or not, in front of something that decodes. */
  lemma DecodeStep(data: seq<Byte>, more: seq<Byte>, content: seq<Byte>, tail: seq<Byte>)
    requires |data| <= BUFFER_SIZE && Decode(more) == Some((content, tail))
    ensures Decode(Frame(data) + more) == Some((data + content, tail))
  {
    if data == [] {
      assert Frame(data) + more == more && data + content == content;
    } else {
      DecodeFrame(data, more);
    }
  }

  lemma {:induction false} FramesRoundTrip(script: seq<ReadStep>, rest: seq<Byte>, tail: seq<Byte>)
    requires Fits(script) && Decode(rest) == Some(([], tail))
    ensures Decode(Frames(script) + rest) == Some((Content(script), tail))
  {
    if script == [] {
      assert Frames(script) + rest == rest;
    } else if script[0].outcome.More? {
      FramesRoundTrip(script[1..], rest, tail);
      DecodeStep(script[0].data, Frames(script[1..]) + rest, Content(script[1..]), tail);
      Associate(Frame(script[0].data), Frames(script[1..]), rest);
    } else {
      DecodeStep(script[0].data, rest, [], tail);
      Associate(Frame(script[0].data), [], rest);
      assert [] + rest == rest;
    }
  }

  /** Round trip: however the reader splits its data, empty reads included, what is sent decodes to
      exactly the reader's content, and the terminator is the only empty chunk. */
  lemma StreamRoundTrip(script: seq<ReadStep>, tail: seq<Byte>)
    requires Fits(script)
    ensures Decode(Encode(script) + tail) == Some((Content(script), tail))
  {
    DecodeTerminator(tail);
    FramesRoundTrip(script, TERMINATOR + tail, tail);
    Associate(Frames(script), TERMINATOR, tail);
  }

  // The sender

  class Reader {
    var script: seq<ReadStep>

    constructor (script: seq<ReadStep>)
      ensures this.script == script
    {
      this.script := script;
    }

    method Read(buf: array<Byte>) returns (n: nat, outcome: Outcome)
      requires Fits(script) && buf.Length == BUFFER_SIZE
      modifies this, buf
      ensures Fits(script) && n <= BUFFER_SIZE
      ensures old(script) == [] ==> script == [] && n == 0 && outcome.Eof?
      ensures old(script) != [] ==>
        script == old(script)[1..] && buf[..n] == old(script)[0].data && outcome == old(script)[0].outcome
    {
      if script == [] {
        return 0, Eof;
      }
      var step := script[0];
      script := script[1..];
      n := |step.data|;
      outcome := step.outcome;
      forall i | 0 <= i < n {
        buf[i] := step.data[i];
      }
    }
  }

  /** A connection that takes so many more bytes and then fails. */
  class Conn {
    var sent: seq<Byte>
    var budget: nat

    constructor (budget: nat)
      ensures sent == [] && this.budget == budget
    {
      sent := [];
      this.budget := budget;
    }

    method Write(p: seq<Byte>) returns (ok: bool)
      modifies this
      ensures ok == (|p| <= old(budget))
      ensures ok ==> sent == old(sent) + p && budget == old(budget) - |p|
      ensures !ok ==> sent == old(sent) + p[..old(budget)] && budget == 0
    {
      ok := |p| <= budget;
      if ok {
        sent := sent + p;
        budget := budget - |p|;
      } else {
        sent := sent + p[..budget];
        budget := 0;
      }
    }
  }

  datatype StreamResult = Streamed | WriteFailed | ReadFailed

  method SendFrame(conn: Conn, data: seq<Byte>) returns (ok: bool)
    requires 0 < |data| <= BUFFER_SIZE
    modifies conn
    ensures ok == (|Frame(data)| <= old(conn.budget))
    ensures ok ==> conn.sent == old(conn.sent) + Frame(data) && conn.budget == old(conn.budget) - |Frame(data)|
  {
    ok := conn.Write(BigEndian(|data|));
    if ok {
      ok := conn.Write(data);
      Associate(old(conn.sent), BigEndian(|data|), data);
    }
  }

  function Tail(script: seq<ReadStep>): seq<ReadStep> {
    if script == [] then [] else script[1..]
  }

  function First(script: seq<ReadStep>): ReadStep {
    if script == [] then ReadStep([], Eof) else script[0]
  }

  lemma FramesStep(sent: seq<Byte>, script: seq<ReadStep>)
    requires Fits(script)
    ensures |First(script).data| <= BUFFER_SIZE
    ensures sent + Frames(script) ==
      (sent + Frame(First(script).data)) + (if First(script).outcome.More? then Frames(Tail(script)) else [])
    ensures |Frames(script)| >= |Frame(First(script).data)|
  {
    Associate(sent, Frame(First(script).data), if First(script).outcome.More? then Frames(Tail(script)) else []);
  }

  /** One turn of the copy loop: read into the buffer, send what was read. */
  method CopyOnce(conn: Conn, r: Reader, buf: array<Byte>) returns (ok: bool, outcome: Outcome)
    requires Fits(r.script) && buf.Length == BUFFER_SIZE
    modifies conn, r, buf
    ensures Fits(r.script) && r.script == Tail(old(r.script)) && outcome == First(old(r.script)).outcome
    ensures |First(old(r.script)).data| <= BUFFER_SIZE
    ensures var frame := Frame(First(old(r.script)).data);
      && ok == (|frame| <= old(conn.budget))
      && (ok ==> conn.sent == old(conn.sent) + frame && conn.budget == old(conn.budget) - |frame|)
  {
    var n;
    n, outcome := r.Read(buf);
    ok := true;
    if n > 0 {
      ok := SendFrame(conn, buf[..n]);
    }
  }

  /** The copy loop: one frame for every non-empty read, until the reader or the connection ends. */
  method SendFrames(conn: Conn, r: Reader) returns (result: StreamResult)
    requires Fits(r.script)
    modifies conn, r
    ensures result.Streamed? <==> Ending(old(r.script)).Eof? && |Frames(old(r.script))| <= old(conn.budget)
    ensures result.Streamed? ==>
      conn.sent == old(conn.sent) + Frames(old(r.script)) && conn.budget == old(conn.budget) - |Frames(old(r.script))|
    ensures result.ReadFailed? ==> Ending(old(r.script)).Broken?
  {
    var buf := new Byte[BUFFER_SIZE];
    while true
      invariant Fits(r.script)
      invariant conn.sent + Frames(r.script) == old(conn.sent) + Frames(old(r.script))
      invariant Ending(r.script) == Ending(old(r.script))
      invariant |conn.sent| - |old(conn.sent)| == old(conn.budget) - conn.budget
      decreases |r.script|
    {
      FramesStep(conn.sent, r.script);
      var ok, outcome := CopyOnce(conn, r, buf);
      if !ok {
        return WriteFailed;
      }
      if outcome.Eof? {
        return Streamed;
      }
      if outcome.Broken? {
        return ReadFailed;
      }
    }
  }

  /** A nil return means exactly this: the reader was consumed to its end of file and the connection
      took the whole encoded stream. */
  method StreamToClamd(conn: Conn, r: Reader) returns (result: StreamResult)
    requires Fits(r.script)
    modifies conn, r
    ensures result.Streamed? <==> Ending(old(r.script)).Eof? && |Encode(old(r.script))| <= old(conn.budget)
    ensures result.Streamed? ==> conn.sent == old(conn.sent) + Encode(old(r.script))
    ensures result.ReadFailed? ==> Ending(old(r.script)).Broken?
  {
    result := SendFrames(conn, r);
    if result.Streamed? {
      Associate(old(conn.sent), Frames(old(r.script)), TERMINATOR);
      var ok := conn.Write(TERMINATOR);
      if !ok {
        result := WriteFailed;
      }
    }
  }

  // The answer

  datatype Answer = CleanAnswer | Threat(name: string) | Unexpected

  const ANSWER_OK := "stream: OK"
  const ANSWER_PREFIX := "stream: "
  const ANSWER_FOUND := " FOUND"

  function TrimPrefix(s: string, p: string): string {
    if HasPrefix(s, p) then s[|p|..] else s
  }

  function TrimSuffix(s: string, p: string): string {
    if EndsWith(s, p) then s[..|s| - |p|] else s
  }

  function ParseAnswer(line: string): Answer {
    if line == ANSWER_OK then CleanAnswer
    else if EndsWith(line, ANSWER_FOUND) then Threat(TrimSuffix(TrimPrefix(line, ANSWER_PREFIX), ANSWER_FOUND))
    else Unexpected
  }

  /** Every threat name clamd may report comes back unchanged, and only one answer is clean. */
  lemma AnswerRoundTrip(line: string, threat: string)
    ensures ParseAnswer(ANSWER_PREFIX + threat + ANSWER_FOUND) == Threat(threat)
    ensures ParseAnswer(line).CleanAnswer? <==> line == ANSWER_OK
    ensures ParseAnswer(line).Threat? <==> EndsWith(line, ANSWER_FOUND)
  {
    var full := ANSWER_PREFIX + threat + ANSWER_FOUND;
    assert full[|full| - |ANSWER_FOUND|..] == ANSWER_FOUND;
    assert full[..|ANSWER_PREFIX|] == ANSWER_PREFIX;
    assert full[|ANSWER_PREFIX|..] == threat + ANSWER_FOUND;
    assert (threat + ANSWER_FOUND)[|threat|..] == ANSWER_FOUND && (threat + ANSWER_FOUND)[..|threat|] == threat;
    assert ANSWER_OK[|ANSWER_OK| - 1] == 'K' && ANSWER_FOUND[|ANSWER_FOUND| - 1] == 'D';
    assert full[|full| - 1] == 'D';
    if EndsWith(line, ANSWER_FOUND) {
      assert line[|line| - |ANSWER_FOUND|..][|ANSWER_FOUND| - 1] == line[|line| - 1];
    }
  }

  // One scan

  datatype ScanOutcome = Scanned(clean: bool, threat: string) | Unavailable | ScanFailed

  const COMMAND: seq<Byte> := [110, 73, 78, 83, 84, 82, 69, 65, 77, 10]  // "nINSTREAM" and a newline

  /** clamd takes the command and the whole stream, and the reader ends in end of file. */
  predicate Accepts(budget: nat, script: seq<ReadStep>)
    requires Fits(script)
  {
    |COMMAND| + |Encode(script)| <= budget && Ending(script).Eof?
  }

  /** An answer that gives a result. */
  predicate Understood(answer: Option<string>) {
    answer.Some? && (answer.value == "stream: OK" || EndsWith(answer.value, " FOUND"))
  }

  lemma BareThreat(threat: string)
    requires !HasPrefix(threat + " FOUND", "stream: ")
    ensures ParseAnswer(threat + " FOUND") == Threat(threat)
  {
    var line := threat + " FOUND";
    assert line[|line| - 6..] == " FOUND" && line[..|line| - 6] == threat;
    assert "stream: OK"[9] == 'K' && line[|line| - 1] == 'D';
  }

  /** The command is nINSTREAM and a newline. */
  lemma CommandSpells()
    ensures COMMAND == seq(10, i requires 0 <= i < 10 => "nINSTREAM\n"[i] as int)
  {
  }

  /** A scan that returns a result has consumed its reader to end of file, and clamd was sent the
      command followed by a stream that decodes to the reader's content. It returns one exactly if clamd could
      be dialled, took all of that, and answered that the stream is fine or names a threat. */
  method ScanReader(dialled: bool, conn: Conn, r: Reader, answer: Option<string>) returns (outcome: ScanOutcome)
    requires Fits(r.script) && conn.sent == []
    modifies conn, r
    ensures outcome.Scanned? ==>
      && Ending(old(r.script)).Eof?
      && |conn.sent| >= |COMMAND| && conn.sent[..|COMMAND|] == COMMAND
      && Decode(conn.sent[|COMMAND|..]) == Some((Content(old(r.script)), []))
      && answer.Some? && (outcome.clean <==> answer.value == ANSWER_OK)
    ensures outcome.Scanned? <==> dialled && Accepts(old(conn.budget), old(r.script)) && Understood(answer)
    ensures dialled && Accepts(old(conn.budget), old(r.script)) ==>
      && (answer == Some("stream: OK") ==> outcome == Scanned(true, ""))
      && (forall threat :: answer == Some("stream: " + threat + " FOUND") ==> outcome == Scanned(false, threat))
      && (forall threat :: answer == Some(threat + " FOUND") && !HasPrefix(answer.value, "stream: ") ==>
            outcome == Scanned(false, threat))
    ensures outcome.Unavailable? <==> !dialled
    ensures !dialled ==> outcome.Unavailable? && r.script == old(r.script)
  {
    if !dialled {
      return Unavailable;
    }
    var ok := conn.Write(COMMAND);
    if !ok {
      return ScanFailed;
    }
    var result := StreamToClamd(conn, r);
    if !result.Streamed? || answer.None? {
      return ScanFailed;
    }
    StreamRoundTrip(old(r.script), []);
    assert conn.sent[|COMMAND|..] == Encode(old(r.script)) == Encode(old(r.script)) + [];
    AnswerRoundTrip(answer.value, "");
    forall threat | answer == Some("stream: " + threat + " FOUND") ensures ParseAnswer(answer.value) == Threat(threat) {
      AnswerRoundTrip(answer.value, threat);
    }
    forall threat | answer == Some(threat + " FOUND") && !HasPrefix(answer.value, "stream: ")
      ensures ParseAnswer(answer.value) == Threat(threat)
    {
      BareThreat(threat);
    }
    match ParseAnswer(answer.value)
    case CleanAnswer => return Scanned(true, "");
    case Threat(name) => return Scanned(false, name);
    case Unexpected => return ScanFailed;
  }
}
