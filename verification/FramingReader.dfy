/** A reader of responses that follows section 6.3 of RFC 9112, and what it makes of the proxy's output. */
module FramingReader {
  import opened Verdicts
  import opened Text
  import opened Digits
  import opened Chunked
  import opened Framing

  // The reader

  function Trim(s: string): string {
    TrimRight(TrimLeft(s))
  }

  /** The field name before the colon and the value after it, without surrounding whitespace. */
  function ParseField(line: string): Option<Field> {
    if line == "" then None
    else if line[0] == ':' then Some(Field("", Trim(line[1..])))
    else
      var f := ParseField(line[1..]);
      if f.None? then None else Some(Field([line[0]] + f.value.name, f.value.value))
  }

  /** Field lines up to the empty line that ends the header section. */
  function ReadFields(s: string): Option<(seq<Field>, string)>
    decreases |s|
  {
    var line := ReadLine(s);
    if line.None? then None
    else if line.value.0 == "" then Some(([], line.value.1))
    else
      var f := ParseField(line.value.0);
      if f.None? then None
      else
        var more := ReadFields(line.value.1);
        if more.None? then None else Some(([f.value] + more.value.0, more.value.1))
  }

  /** The values of all fields of that name, in order. */
  function Values(fs: seq<Field>, name: string): seq<string> {
    if fs == [] then []
    else (if FoldEqual(fs[0].name, name) then [fs[0].value] else []) + Values(fs[1..], name)
  }

  function AfterLastComma(s: string): string {
    if ',' in s then AfterLastComma(s[1..]) else s
  }

  datatype BodyFraming = ByLength(n: nat) | ByChunks | UntilClose | Invalid

  /** Section 6.3: a transfer coding overrides a content length; repeated lengths must agree. */
  function FramingOf(fs: seq<Field>): BodyFraming {
    var codings, lengths := Values(fs, TRANSFER_ENCODING), Values(fs, CONTENT_LENGTH);
    if codings != [] then
      if FoldEqual(Trim(AfterLastComma(codings[|codings| - 1])), "chunked") then ByChunks else UntilClose
    else if lengths == [] then UntilClose
    else if (exists i :: 0 <= i < |lengths| && lengths[i] != lengths[0]) || Parse(lengths[0], 10).None? then Invalid
    else ByLength(Parse(lengths[0], 10).value)
  }

  function CodeOf(statusLine: string): Option<nat> {
    if |statusLine| < 12 then None else Parse(statusLine[9..12], 10)
  }

  predicate Bodiless(code: nat) {
    code < 200 || code == 204 || code == 304
  }

  /** One response: its body and what follows it on the connection. */
  function ReadMessage(s: string): Option<(string, string)> {
    var start := ReadLine(s);
    if start.None? || CodeOf(start.value.0).None? then None
    else
      var head := ReadFields(start.value.1);
      if head.None? then None
      else
        var rest := head.value.1;
        if Bodiless(CodeOf(start.value.0).value) then Some(("", rest))
        else match FramingOf(head.value.0)
          case ByLength(n) => if |rest| < n then None else Some((rest[..n], rest[n..]))
          case ByChunks => Decode(rest)
          case UntilClose => Some((rest, ""))
          case Invalid => None
  }

  function ReadAll(s: string, n: nat): Option<(seq<string>, string)>
    decreases n
  {
    if n == 0 then Some(([], s))
    else
      var first := ReadMessage(s);
      if first.None? then None
      else
        var more := ReadAll(first.value.1, n - 1);
        if more.None? then None else Some(([first.value.0] + more.value.0, more.value.1))
  }

  // What may be assumed of an upstream response parsed by net/http

  predicate TokenChar(c: char) {
    'a' <= c <= 'z' || '0' <= c <= '9' || c in "!#$%&'*+-.^_`|~"
  }

  predicate IsToken(name: string) {
    forall i :: 0 <= i < |name| ==> TokenChar(LowerChar(name[i]))
  }

  function UpperChar(c: char): char {
    if 'a' <= c <= 'z' then ((c as int) - 32) as char else c
  }

  /** Upper case for the first letter and for every letter after a hyphen, given lower case. */
  function Capitalise(s: string): string {
    seq(|s|, i requires 0 <= i < |s| => if i == 0 || s[i - 1] == '-' then UpperChar(s[i]) else s[i])
  }

  /** net/textproto's canonical form of a field name; what is not a token is left alone. */
  function CanonicalKey(name: string): string {
    if IsToken(name) then Capitalise(Lower(name)) else name
  }

  /** The parser splits lines at their end and fields at the first colon, and makes names canonical. */
  predicate CleanHeader(h: Header) {
    && ':' !in h.name && '\r' !in h.name
    && (forall i :: 0 <= i < |h.values| ==> '\r' !in h.values[i])
    && CanonicalKey(h.name) == h.name
  }

  predicate CleanHeaders(hs: seq<Header>) {
    forall i :: 0 <= i < |hs| ==> CleanHeader(hs[i])
  }

  /** The nine hop-by-hop names. */
  predicate IsHopByHop(name: string) {
    || name == "Connection" || name == "Keep-Alive" || name == "Proxy-Authenticate" || name == "Proxy-Authorization"
    || name == "Proxy-Connection" || name == "Te" || name == "Trailers" || name == "Transfer-Encoding" || name == "Upgrade"
  }

  /** A letter or hyphen, upper case exactly at the start of a word. */
  predicate CanonicalAt(s: string, i: nat)
    requires i < |s|
  {
    if s[i] == '-' then true
    else if i == 0 || s[i - 1] == '-' then 'A' <= s[i] <= 'Z'
    else 'a' <= s[i] <= 'z'
  }

  lemma CanonicalText(s: string)
    requires forall i :: 0 <= i < |s| ==> CanonicalAt(s, i)
    ensures IsToken(s) && CanonicalKey(s) == s
  {
    assert forall i :: 0 <= i < |s| && s[i] == '-' ==> Lower(s)[i] == '-';
    forall i | 0 <= i < |s| ensures TokenChar(LowerChar(s[i])) && Capitalise(Lower(s))[i] == s[i] {
      assert CanonicalAt(s, i);
    }
  }

  lemma ProxyNameIsCanonical(name: string)
    requires name == "Proxy-Authenticate" || name == "Proxy-Authorization" || name == "Proxy-Connection"
    ensures forall i :: 0 <= i < |name| ==> CanonicalAt(name, i)
  {
  }

  lemma WordsAreCanonical(name: string)
    requires name == "Connection" || name == "Te" || name == "Trailers" || name == "Upgrade"
    ensures forall i :: 0 <= i < |name| ==> CanonicalAt(name, i)
  {
  }

  lemma HopByHopIsCanonical(name: string)
    requires IsHopByHop(name)
    ensures IsToken(name) && CanonicalKey(name) == name
  {
    if name == "Proxy-Authenticate" || name == "Proxy-Authorization" || name == "Proxy-Connection" {
      ProxyNameIsCanonical(name);
    } else if name == "Connection" || name == "Te" || name == "Trailers" || name == "Upgrade" {
      WordsAreCanonical(name);
    } else {
      assert forall i :: 0 <= i < |name| ==> CanonicalAt(name, i);
    }
    CanonicalText(name);
  }

  /** Two canonical names that differ at most in case are the same. */
  lemma CanonicalIsExact(a: string, b: string)
    requires CanonicalKey(a) == a && CanonicalKey(b) == b && IsToken(b) && FoldEqual(a, b)
    ensures a == b
  {
    forall i | 0 <= i < |a| ensures TokenChar(LowerChar(a[i])) {
      assert LowerChar(a[i]) == Lower(a)[i] == Lower(b)[i] == LowerChar(b[i]);
    }
  }

  /** A response as net/http parses it. */
  predicate CleanHead(r: Response) {
    '\r' !in r.status && '\r' !in r.statusText && CleanHeaders(r.headers)
  }

  /** A body-bearing response whose body has the announced length, if one was announced. */
  predicate BodyBearing(r: Response) {
    && 200 <= r.code <= 999 && !Bodiless(r.code)
    && CleanHead(r)
    && (r.contentLength >= 0 ==> |Concat(r.pieces)| == r.contentLength)
  }

  /** Head and body writer agree: not a response of unknown length that closes the connection, whose
      head announces neither length nor chunks although the body is written in chunks. */
  predicate WritersAgree(r: Response) {
    r.contentLength >= 0 || !r.close
  }

  predicate WellFormed(r: Response) {
    BodyBearing(r) && WritersAgree(r)
  }

  // Exactly one framing field

  predicate IsFraming(f: Field) {
    FoldEqual(f.name, CONTENT_LENGTH) || FoldEqual(f.name, TRANSFER_ENCODING)
  }

  function FramingFields(fs: seq<Field>): seq<Field> {
    if fs == [] then []
    else (if IsFraming(fs[0]) then [fs[0]] else []) + FramingFields(fs[1..])
  }

  lemma {:induction false} FramingFieldsAppend(a: seq<Field>, b: seq<Field>)
    ensures FramingFields(a + b) == FramingFields(a) + FramingFields(b)
  {
    if a == [] {
      assert a + b == b;
    } else {
      assert (a + b)[1..] == a[1..] + b;
      FramingFieldsAppend(a[1..], b);
      var first := if IsFraming(a[0]) then [a[0]] else [];
      assert (a + b)[0] == a[0] && FramingFields(a) == first + FramingFields(a[1..]);
      Associate(first, FramingFields(a[1..]), FramingFields(b));
    }
  }

  lemma {:induction false} FieldsOfFraming(name: string, values: seq<string>)
    ensures |FramingFields(FieldsOf(name, values))| == if IsFraming(Field(name, "")) then |values| else 0
  {
    if values != [] {
      assert FieldsOf(name, values)[1..] == FieldsOf(name, values[1..]);
      FieldsOfFraming(name, values[1..]);
    }
  }

  lemma HeaderFramingIsDropped(h: Header)
    requires CanonicalKey(h.name) == h.name
    ensures FramingFields(ForwardedOf(h)) == []
  {
    FieldsOfFraming(h.name, h.values);
    if FoldEqual(h.name, TRANSFER_ENCODING) {
      HopByHopIsCanonical(TRANSFER_ENCODING);
      CanonicalIsExact(h.name, TRANSFER_ENCODING);
    }
  }

  /** The upstream's own framing fields are all dropped: the hop-by-hop set is looked up by exact name, and
      that is enough for parsed headers. */
  lemma {:induction false} UpstreamFramingIsDropped(hs: seq<Header>)
    requires CleanHeaders(hs)
    ensures FramingFields(Forwarded(hs)) == []
  {
    if hs != [] {
      assert CleanHeaders(hs[1..]) && CleanHeader(hs[0]);
      UpstreamFramingIsDropped(hs[1..]);
      HeaderFramingIsDropped(hs[0]);
      FramingFieldsAppend(ForwardedOf(hs[0]), Forwarded(hs[1..]));
    }
  }

  /** Whatever the upstream's fields were, the framing fields sent are the length if it is known, else the
      chunk coding if the connection is kept, else none: exactly one, unless head and body writer differ. */
  lemma OneFramingField(r: Response)
    requires r.code != 101 && CleanHeaders(r.headers)
    ensures FramingFields(Forwarded(r.headers) + FramingField(r)) ==
      if r.contentLength >= 0 then [Field(CONTENT_LENGTH, Print(r.contentLength, 10))]
      else if r.close then []
      else [Field(TRANSFER_ENCODING, "chunked")]
    ensures |FramingFields(Forwarded(r.headers) + FramingField(r))| == 1 <==> WritersAgree(r)
  {
    FramingFieldsAppend(Forwarded(r.headers), FramingField(r));
    UpstreamFramingIsDropped(r.headers);
    assert |Lower("Connection")| == 10 && |Lower(CONTENT_LENGTH)| == 14 && |Lower(TRANSFER_ENCODING)| == 17;
    assert FramingField(r)[1..] == [];
  }

  // Reading back what was written

  lemma TrimSolid(s: string)
    requires s != "" && !IsSpace(s[0]) && !IsSpace(s[|s| - 1])
    ensures Trim(s) == s
  {
  }

  lemma {:induction false} ParseFieldExact(name: string, value: string)
    requires ':' !in name
    ensures ParseField(name + ": " + value) == Some(Field(name, Trim(value)))
  {
    var line := name + ": " + value;
    if name == "" {
      assert line[1..] == " " + value;
      assert (" " + value)[1..] == value;
    } else {
      assert line[1..] == name[1..] + ": " + value;
      ParseFieldExact(name[1..], value);
      assert [name[0]] + name[1..] == name;
    }
  }

  function Trimmed(fs: seq<Field>): seq<Field> {
    if fs == [] then [] else [Field(fs[0].name, Trim(fs[0].value))] + Trimmed(fs[1..])
  }

  predicate CleanField(f: Field) {
    ':' !in f.name && '\r' !in f.name && '\r' !in f.value
  }

  lemma LineThenRest(line: string, lines: string, rest: string)
    ensures (line + CRLF + lines) + CRLF + rest == line + CRLF + (lines + CRLF + rest)
  {
  }

  lemma {:induction false} ReadFieldsExact(fs: seq<Field>, rest: string)
    requires forall f :: f in fs ==> CleanField(f)
    ensures ReadFields(FieldLines(fs) + CRLF + rest) == Some((Trimmed(fs), rest))
  {
    if fs == [] {
      assert FieldLines(fs) + CRLF + rest == "" + CRLF + rest;
      ReadLineExact("", rest);
    } else {
      var f := fs[0];
      var line := f.name + ": " + f.value;
      var after := FieldLines(fs[1..]) + CRLF + rest;
      assert CleanField(f);
      LineThenRest(line, FieldLines(fs[1..]), rest);
      ReadLineExact(line, after);
      ParseFieldExact(f.name, f.value);
      ReadFieldsExact(fs[1..], rest);
    }
  }

  lemma {:induction false} FieldsOfClean(name: string, values: seq<string>)
    requires CleanHeader(Header(name, values))
    ensures forall f :: f in FieldsOf(name, values) ==> CleanField(f)
  {
    if values != [] {
      assert CleanHeader(Header(name, values[1..]));
      FieldsOfClean(name, values[1..]);
    }
  }

  lemma {:induction false} ForwardedClean(hs: seq<Header>)
    requires CleanHeaders(hs)
    ensures forall f :: f in Forwarded(hs) ==> CleanField(f)
  {
    if hs != [] {
      ForwardedClean(hs[1..]);
      assert CleanHeader(hs[0]);
      FieldsOfClean(hs[0].name, hs[0].values);
    }
  }

  /** Fields that do not frame the body do not influence how it is read. */
  lemma {:induction false} OnlyFramingFieldsCount(fs: seq<Field>, name: string)
    requires name == CONTENT_LENGTH || name == TRANSFER_ENCODING
    ensures Values(Trimmed(fs), name) == Values(Trimmed(FramingFields(fs)), name)
  {
    if fs != [] {
      OnlyFramingFieldsCount(fs[1..], name);
      assert Trimmed(fs)[1..] == Trimmed(fs[1..]);
      if IsFraming(fs[0]) {
        assert FramingFields(fs)[1..] == FramingFields(fs[1..]);
        assert Trimmed(FramingFields(fs))[1..] == Trimmed(FramingFields(fs[1..]));
      } else {
        assert FramingFields(fs) == FramingFields(fs[1..]);
        assert !FoldEqual(Trimmed(fs)[0].name, name);
      }
    }
  }

  lemma OneValue(f: Field, name: string)
    ensures Values(Trimmed([f]), name) == if FoldEqual(f.name, name) then [Trim(f.value)] else []
  {
    assert Trimmed([f]) == [Field(f.name, Trim(f.value))];
    assert [f][1..] == [] && Trimmed([f])[1..] == [];
  }

  lemma NamesDiffer()
    ensures !FoldEqual(CONTENT_LENGTH, TRANSFER_ENCODING)
  {
    assert |Lower(CONTENT_LENGTH)| == 14 && |Lower(TRANSFER_ENCODING)| == 17;
  }

  lemma SolidNumber(n: nat)
    ensures Trim(Print(n, 10)) == Print(n, 10)
  {
    var s := Print(n, 10);
    assert s[0] in DIGITS && s[|s| - 1] in DIGITS;
    TrimSolid(s);
  }

  lemma FramingByLength(fs: seq<Field>, n: nat)
    requires Values(fs, TRANSFER_ENCODING) == [] && Values(fs, CONTENT_LENGTH) == [Print(n, 10)]
    ensures FramingOf(fs) == ByLength(n)
  {
    ParsePrint(n, 10);
  }

  lemma FramingByChunks(fs: seq<Field>)
    requires Values(fs, TRANSFER_ENCODING) == ["chunked"]
    ensures FramingOf(fs) == ByChunks
  {
    TrimSolid("chunked");
  }

  lemma LengthIsUnderstood(fs: seq<Field>, n: nat)
    requires FramingFields(fs) == [Field(CONTENT_LENGTH, Print(n, 10))]
    ensures FramingOf(Trimmed(fs)) == ByLength(n)
  {
    OnlyFramingFieldsCount(fs, CONTENT_LENGTH);
    OnlyFramingFieldsCount(fs, TRANSFER_ENCODING);
    NamesDiffer();
    OneValue(Field(CONTENT_LENGTH, Print(n, 10)), CONTENT_LENGTH);
    OneValue(Field(CONTENT_LENGTH, Print(n, 10)), TRANSFER_ENCODING);
    SolidNumber(n);
    FramingByLength(Trimmed(fs), n);
  }

  lemma ChunksAreUnderstood(fs: seq<Field>)
    requires FramingFields(fs) == [Field(TRANSFER_ENCODING, "chunked")]
    ensures FramingOf(Trimmed(fs)) == ByChunks
  {
    OnlyFramingFieldsCount(fs, TRANSFER_ENCODING);
    OneValue(Field(TRANSFER_ENCODING, "chunked"), TRANSFER_ENCODING);
    TrimSolid("chunked");
    FramingByChunks(Trimmed(fs));
  }

  lemma FramingIsUnderstood(r: Response)
    requires WellFormed(r)
    ensures FramingOf(Trimmed(Forwarded(r.headers) + FramingField(r))) ==
      if r.contentLength >= 0 then ByLength(r.contentLength) else ByChunks
  {
    var fs := Forwarded(r.headers) + FramingField(r);
    OneFramingField(r);
    if r.contentLength >= 0 {
      LengthIsUnderstood(fs, r.contentLength);
    } else {
      ChunksAreUnderstood(fs);
    }
  }

  lemma ThreeDigits(n: nat)
    requires 100 <= n <= 999
    ensures |Print(n, 10)| == 3
  {
    assert |Print(n / 10 / 10, 10)| == 1;
    assert |Print(n / 10, 10)| == 2;
  }

  lemma CodeIsRead(r: Response)
    requires 200 <= r.code <= 999
    ensures CodeOf(StatusLine(r)) == Some(r.code)
  {
    ThreeDigits(r.code);
    assert StatusLine(r)[9..12] == Print(r.code, 10);
    ParsePrint(r.code, 10);
  }

  lemma StatusLineIsClean(r: Response)
    requires '\r' !in r.status && '\r' !in r.statusText
    ensures '\r' !in StatusLine(r)
  {
    assert '\r' !in Print(r.code, 10);
  }

  lemma LengthFieldIsClean(n: nat)
    ensures CleanField(Field(CONTENT_LENGTH, Print(n, 10)))
  {
    assert '\r' !in Print(n, 10);
  }

  lemma ConnectionFieldIsClean()
    ensures CleanField(Field("Connection", "close"))
  {
  }

  lemma ChunkedFieldIsClean()
    ensures CleanField(Field(TRANSFER_ENCODING, "chunked"))
  {
  }

  lemma FramingFieldIsClean(r: Response)
    ensures forall f :: f in FramingField(r) ==> CleanField(f)
  {
    if r.contentLength >= 0 {
      LengthFieldIsClean(r.contentLength);
    }
    ConnectionFieldIsClean();
    ChunkedFieldIsClean();
  }

  lemma HeadThenRest(r: Response, rest: string)
    ensures Head(r) + rest ==
      StatusLine(r) + CRLF + (FieldLines(Forwarded(r.headers) + FramingField(r)) + CRLF + rest)
  {
    var line, lines := StatusLine(r), FieldLines(Forwarded(r.headers) + FramingField(r));
    assert Head(r) == line + CRLF + lines + CRLF;
    LineThenRest(line, lines, rest);
  }

  lemma FieldsAreRead(r: Response, rest: string)
    requires CleanHeaders(r.headers)
    ensures ReadFields(FieldLines(Forwarded(r.headers) + FramingField(r)) + CRLF + rest) ==
      Some((Trimmed(Forwarded(r.headers) + FramingField(r)), rest))
  {
    ForwardedClean(r.headers);
    FramingFieldIsClean(r);
    ReadFieldsExact(Forwarded(r.headers) + FramingField(r), rest);
  }

  lemma HeadIsRead(r: Response, rest: string)
    requires CleanHead(r)
    ensures var start := ReadLine(Head(r) + rest);
      && start.Some? && start.value.0 == StatusLine(r)
      && ReadFields(start.value.1) == Some((Trimmed(Forwarded(r.headers) + FramingField(r)), rest))
  {
    HeadThenRest(r, rest);
    StatusLineIsClean(r);
    ReadLineExact(StatusLine(r), FieldLines(Forwarded(r.headers) + FramingField(r)) + CRLF + rest);
    FieldsAreRead(r, rest);
  }

  // What becomes of the upstream's header fields

  /** The values of the fields of exactly that name, in order. */
  function ValuesOf(fs: seq<Field>, name: string): seq<string> {
    if fs == [] then [] else (if fs[0].name == name then [fs[0].value] else []) + ValuesOf(fs[1..], name)
  }

  function TrimAll(values: seq<string>): seq<string> {
    if values == [] then [] else [Trim(values[0])] + TrimAll(values[1..])
  }

  /** The values that the upstream sent under exactly that name, in order, trimmed. */
  function Upstream(hs: seq<Header>, name: string): seq<string> {
    if hs == [] then [] else (if hs[0].name == name then TrimAll(hs[0].values) else []) + Upstream(hs[1..], name)
  }

  lemma {:induction false} ValuesOfAppend(a: seq<Field>, b: seq<Field>, name: string)
    ensures ValuesOf(Trimmed(a + b), name) == ValuesOf(Trimmed(a), name) + ValuesOf(Trimmed(b), name)
  {
    if a == [] {
      assert a + b == b;
    } else {
      assert (a + b)[1..] == a[1..] + b;
      ValuesOfAppend(a[1..], b, name);
      var first := if a[0].name == name then [Trim(a[0].value)] else [];
      assert Trimmed(a)[1..] == Trimmed(a[1..]) && Trimmed(a + b)[1..] == Trimmed(a[1..] + b);
      Associate(first, ValuesOf(Trimmed(a[1..]), name), ValuesOf(Trimmed(b), name));
    }
  }

  lemma {:induction false} ValuesOfHeader(key: string, values: seq<string>, name: string)
    ensures ValuesOf(Trimmed(FieldsOf(key, values)), name) == if key == name then TrimAll(values) else []
  {
    if values != [] {
      ValuesOfHeader(key, values[1..], name);
      assert FieldsOf(key, values)[1..] == FieldsOf(key, values[1..]);
      assert Trimmed(FieldsOf(key, values))[1..] == Trimmed(FieldsOf(key, values[1..]));
    }
  }

  lemma {:induction false} ForwardedValues(hs: seq<Header>, name: string)
    ensures ValuesOf(Trimmed(Forwarded(hs)), name) ==
      if IsHopByHop(name) || FoldEqual(name, "Content-Length") then [] else Upstream(hs, name)
  {
    if hs != [] {
      ForwardedValues(hs[1..], name);
      ValuesOfHeader(hs[0].name, hs[0].values, name);
      ValuesOfAppend(ForwardedOf(hs[0]), Forwarded(hs[1..]), name);
    }
  }

  lemma FramingValues(r: Response, name: string)
    requires !IsHopByHop(name) && !FoldEqual(name, "Content-Length")
    ensures ValuesOf(Trimmed(FramingField(r)), name) == []
  {
    assert FramingField(r) != [] ==> FramingField(r)[1..] == [] && Trimmed(FramingField(r))[1..] == [];
  }

  /** What a reader finds in the head, under a name, in order. */
  function ReadBack(r: Response, rest: string, name: string): Option<seq<string>> {
    var start := ReadLine(Head(r) + rest);
    if start.None? || ReadFields(start.value.1).None? then None
    else Some(ValuesOf(ReadFields(start.value.1).value.0, name))
  }

  lemma HeadValues(r: Response, name: string)
    ensures ValuesOf(Trimmed(Forwarded(r.headers) + FramingField(r)), name) ==
      if IsHopByHop(name) || FoldEqual(name, "Content-Length") then ValuesOf(Trimmed(FramingField(r)), name)
      else Upstream(r.headers, name)
  {
    ValuesOfAppend(Forwarded(r.headers), FramingField(r), name);
    ForwardedValues(r.headers, name);
    if !IsHopByHop(name) && !FoldEqual(name, "Content-Length") {
      FramingValues(r, name);
    }
  }

  lemma ReadBackIs(r: Response, rest: string, name: string)
    requires CleanHead(r)
    ensures ReadBack(r, rest, name) == Some(ValuesOf(Trimmed(Forwarded(r.headers) + FramingField(r)), name))
  {
    HeadIsRead(r, rest);
  }

  /** Forwarding: under every name that is neither hop-by-hop nor a content length, a reader finds exactly the
      values the upstream sent, in order and with repetition; under the others, none of the upstream's, but
      only what the proxy itself wrote there. */
  lemma HeadersAreForwarded(r: Response, rest: string, name: string)
    requires CleanHead(r)
    ensures ReadBack(r, rest, name) ==
      if IsHopByHop(name) || FoldEqual(name, "Content-Length") then Some(ValuesOf(Trimmed(FramingField(r)), name))
      else Some(Upstream(r.headers, name))
  {
    ReadBackIs(r, rest, name);
    HeadValues(r, name);
  }

  lemma {:induction false} FieldsOfNames(name: string, values: seq<string>)
    ensures forall f :: f in FieldsOf(name, values) ==> f.name == name
  {
    if values != [] {
      FieldsOfNames(name, values[1..]);
    }
  }

  /** No hop-by-hop field of a parsed response is forwarded, in whatever case a reader compares names. */
  lemma {:induction false} HopByHopIsDropped(hs: seq<Header>, f: Field, name: string)
    requires CleanHeaders(hs) && f in Forwarded(hs) && IsHopByHop(name)
    ensures !FoldEqual(f.name, name)
  {
    if f in Forwarded(hs[1..]) {
      assert CleanHeaders(hs[1..]);
      HopByHopIsDropped(hs[1..], f, name);
    } else {
      FieldsOfNames(hs[0].name, hs[0].values);
      assert CleanHeader(hs[0]) && f.name == hs[0].name;
      HopByHopIsCanonical(name);
      if FoldEqual(f.name, name) {
        CanonicalIsExact(f.name, name);
        assert false;
      }
    }
  }

  /** What the proxy itself writes: the length if it is known, the announcement that the connection closes,
      or the chunk coding; nothing else under a name that is not forwarded. */
  lemma ProxyFields(r: Response, name: string)
    requires r.code != 101
    ensures ValuesOf(Trimmed(FramingField(r)), name) ==
      if r.contentLength >= 0 then (if name == "Content-Length" then [Print(r.contentLength, 10)] else [])
      else if r.close then (if name == "Connection" then ["close"] else [])
      else (if name == "Transfer-Encoding" then ["chunked"] else [])
  {
    assert FramingField(r)[1..] == [] && Trimmed(FramingField(r))[1..] == [];
    if r.contentLength >= 0 {
      SolidNumber(r.contentLength);
    } else if r.close {
      TrimSolid("close");
    } else {
      TrimSolid("chunked");
    }
  }

  lemma AgreedMessageIsRead(r: Response, rest: string)
    requires WellFormed(r)
    ensures ReadMessage(Head(r) + (WireBody(r) + rest)) == Some((Concat(r.pieces), rest))
  {
    var after := WireBody(r) + rest;
    HeadIsRead(r, after);
    CodeIsRead(r);
    FramingIsUnderstood(r);
    if r.contentLength >= 0 {
      assert WireBody(r) == Concat(r.pieces);
      assert after[..r.contentLength] == Concat(r.pieces) && after[r.contentLength..] == rest;
    } else {
      ChunkedRoundTrip(r.pieces, rest);
    }
  }

  lemma NoFramingUntilClose(r: Response)
    requires BodyBearing(r) && !WritersAgree(r)
    ensures FramingOf(Trimmed(Forwarded(r.headers) + FramingField(r))) == UntilClose
  {
    var fs := Forwarded(r.headers) + FramingField(r);
    OneFramingField(r);
    OnlyFramingFieldsCount(fs, CONTENT_LENGTH);
    OnlyFramingFieldsCount(fs, TRANSFER_ENCODING);
  }

  lemma {:induction false} ChunkingAddsBytes(pieces: seq<string>)
    ensures |Concat(pieces)| <= |Chunks(pieces)|
  {
    if pieces != [] {
      ChunkingAddsBytes(pieces[1..]);
    }
  }

  /** One message: the reader finds the body and stops at the message boundary, if and only if head and
      body writer agree; otherwise it takes the chunk coding, and all that follows, for the body. */
  lemma MessageRoundTrip(r: Response, rest: string)
    requires BodyBearing(r)
    ensures ReadMessage(Head(r) + (WireBody(r) + rest)) == Some((Concat(r.pieces), rest)) <==> WritersAgree(r)
    ensures !WritersAgree(r) ==> ReadMessage(Head(r) + (WireBody(r) + rest)) == Some((Encode(r.pieces) + rest, ""))
  {
    if WritersAgree(r) {
      AgreedMessageIsRead(r, rest);
    } else {
      HeadIsRead(r, WireBody(r) + rest);
      CodeIsRead(r);
      NoFramingUntilClose(r);
      ChunkingAddsBytes(r.pieces);
      assert |Encode(r.pieces)| > |Concat(r.pieces)|;
    }
  }

  /** The status line gives the reason after the code, as section 4 of RFC 9112 has it, if and only if the
      upstream response has no status text, or its status text is just the reason. */
  lemma StatusLineIff(r: Response)
    ensures StatusLine(r) == "HTTP/1.1 " + Print(r.code, 10) + " " + r.statusText <==> r.status == "" || r.status == r.statusText
  {
    var front := "HTTP/1.1 " + Print(r.code, 10) + " ";
    var text := if r.status == "" then r.statusText else r.status;
    assert (front + text)[|front|..] == text && (front + r.statusText)[|front|..] == r.statusText;
  }

  /** Responses parsed by net/http have status texts that start with the code, so that it is sent twice. */
  lemma StatusLineRepeatsCode(r: Response)
    requires r.code == 200 && r.status == "200 OK" && r.statusText == "OK"
    ensures StatusLine(r) == "HTTP/1.1 200 200 OK" != "HTTP/1.1 " + Print(r.code, 10) + " " + r.statusText
  {
    assert Print(2, 10) == "2" && Print(20, 10) == "20";
    assert Print(200, 10) == "200";
    StatusLineIff(r);
  }

  /** After version and code, the status line has the upstream's status text, or the standard one if that is
      empty. */
  lemma StatusTextIsSent(r: Response)
    requires 200 <= r.code <= 999
    ensures CodeOf(StatusLine(r)) == Some(r.code)
    ensures |StatusLine(r)| >= 13 && StatusLine(r)[..9] == "HTTP/1.1 " && StatusLine(r)[12] == ' '
    ensures StatusLine(r)[13..] == if r.status == "" then r.statusText else r.status
  {
    CodeIsRead(r);
    ThreeDigits(r.code);
  }

  // A keep-alive connection

  function Wire(rs: seq<Response>): string {
    if rs == [] then "" else Head(rs[0]) + WireBody(rs[0]) + Wire(rs[1..])
  }

  function Bodies(rs: seq<Response>): seq<string> {
    if rs == [] then [] else [Concat(rs[0].pieces)] + Bodies(rs[1..])
  }

  lemma WireStep(head: string, body: string, wire: string, tail: string)
    ensures head + body + wire + tail == head + (body + (wire + tail))
  {
  }

  /** Framing: for every sequence of responses on one connection, whatever follows them, the reader
      recovers exactly the list of bodies and is left with what follows. */
  lemma {:induction false} ConnectionRoundTrip(rs: seq<Response>, tail: string)
    requires forall i :: 0 <= i < |rs| ==> WellFormed(rs[i])
    ensures ReadAll(Wire(rs) + tail, |rs|) == Some((Bodies(rs), tail))
  {
    if rs == [] {
      assert Wire(rs) + tail == tail;
    } else {
      WireStep(Head(rs[0]), WireBody(rs[0]), Wire(rs[1..]), tail);
      MessageRoundTrip(rs[0], Wire(rs[1..]) + tail);
      ConnectionRoundTrip(rs[1..], tail);
    }
  }

  lemma {:induction false} WireAppend(rs: seq<Response>, r: Response)
    ensures Wire(rs + [r]) == Wire(rs) + (Head(r) + WireBody(r))
  {
    if rs == [] {
      assert rs + [r] == [r];
      assert Wire([r][1..]) == "";
    } else {
      assert (rs + [r])[1..] == rs[1..] + [r];
      WireAppend(rs[1..], r);
      Associate(Head(rs[0]) + WireBody(rs[0]), Wire(rs[1..]), Head(r) + WireBody(r));
    }
  }

  /** Neither side wants one of the first n responses to be the last. */
  predicate KeptAlive(rs: seq<Response>, requestCloses: seq<bool>, n: nat)
    requires n <= |rs| == |requestCloses|
  {
    forall i :: 0 <= i < n ==> !rs[i].close && !requestCloses[i]
  }

  lemma KeptAliveMore(rs: seq<Response>, requestCloses: seq<bool>, n: nat)
    requires n < |rs| == |requestCloses| && KeptAlive(rs, requestCloses, n) && !rs[n].close && !requestCloses[n]
    ensures KeptAlive(rs, requestCloses, n + 1)
  {
  }

  lemma PrefixGrows(rs: seq<Response>, i: nat)
    requires i < |rs|
    ensures rs[..i + 1] == rs[..i] + [rs[i]]
  {
  }

  lemma WirePrefix(rs: seq<Response>, i: nat)
    requires i < |rs|
    ensures Wire(rs[..i + 1]) == Wire(rs[..i]) + (Head(rs[i]) + WireBody(rs[i]))
  {
    PrefixGrows(rs, i);
    WireAppend(rs[..i], rs[i]);
  }

  lemma Prepend(base: string, whole: string, front: string, last: string)
    requires whole == front + last
    ensures base + whole == base + front + last
  {
  }

  lemma WireGrows(base: string, rs: seq<Response>, i: nat)
    requires i < |rs|
    ensures base + Wire(rs[..i + 1]) == base + Wire(rs[..i]) + (Head(rs[i]) + WireBody(rs[i]))
  {
    WirePrefix(rs, i);
    Prepend(base, Wire(rs[..i + 1]), Wire(rs[..i]), Head(rs[i]) + WireBody(rs[i]));
  }

  method WriteResponse(conn: ByteSink, r: Response)
    modifies conn
    ensures conn.data == old(conn.data) + (Head(r) + WireBody(r))
  {
    LoopWriteHead(conn, r);
    LoopWriteBody(conn, r);
    Associate(old(conn.data), Head(r), WireBody(r));
  }

  /** One turn of the loop: writes a response and says whether it is the last. */
  method WriteNext(conn: ByteSink, rs: seq<Response>, requestCloses: seq<bool>, i: nat, ghost base: string) returns (last: bool)
    requires i < |rs| == |requestCloses| && conn.data == base + Wire(rs[..i])
    modifies conn
    ensures conn.data == base + Wire(rs[..i + 1])
    ensures last == (rs[i].close || requestCloses[i])
  {
    WireGrows(base, rs, i);
    WriteResponse(conn, rs[i]);
    last := rs[i].close || requestCloses[i];
  }

  /** The keep-alive part of the connection loop: responses are written one after the other until one
      is the last; nothing is written after it. */
  method ServeConnLoop(conn: ByteSink, rs: seq<Response>, requestCloses: seq<bool>) returns (served: nat)
    requires |rs| == |requestCloses|
    modifies conn
    ensures served <= |rs| && conn.data == old(conn.data) + Wire(rs[..served])
    ensures served > 0 ==> KeptAlive(rs, requestCloses, served - 1)
    ensures served < |rs| ==> served > 0 && (rs[served - 1].close || requestCloses[served - 1])
  {
    served := 0;
    while served < |rs|
      invariant served <= |rs| && conn.data == old(conn.data) + Wire(rs[..served])
      invariant KeptAlive(rs, requestCloses, served)
    {
      var last := WriteNext(conn, rs, requestCloses, served, old(conn.data));
      served := served + 1;
      if last {
        return;
      }
      KeptAliveMore(rs, requestCloses, served - 1);
    }
  }
}
