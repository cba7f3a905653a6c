/** HTTP/1.1 response framing on a keep-alive connection: what the proxy writes for each upstream
    response, and a reader that follows section 6.3 of RFC 9112. */
module Framing {
  import opened Text
  import opened Digits
  import opened Chunked

  /** One entry of the upstream header map, which is iterated in no particular order. */
  datatype Header = Header(name: string, values: seq<string>)

  /** An upstream response. A negative content length means unknown; pieces is how the body arrives. */
  datatype Response = Response(
    code: nat, status: string, statusText: string, headers: seq<Header>,
    contentLength: int, close: bool, pieces: seq<string>)

  const HOP_HEADERS: set<string> :=
    {"Connection", "Keep-Alive", "Proxy-Authenticate", "Proxy-Authorization", "Proxy-Connection", "Te", "Trailers",
     "Transfer-Encoding", "Upgrade"}

  const CONTENT_LENGTH := "Content-Length"
  const TRANSFER_ENCODING := "Transfer-Encoding"

  datatype Field = Field(name: string, value: string)

  // What is written

  function FieldLine(f: Field): string {
    f.name + ": " + f.value + CRLF
  }

  function FieldLines(fs: seq<Field>): string {
    if fs == [] then "" else FieldLine(fs[0]) + FieldLines(fs[1..])
  }

  predicate Dropped(name: string) {
    name in HOP_HEADERS || FoldEqual(name, CONTENT_LENGTH)
  }

  function FieldsOf(name: string, values: seq<string>): seq<Field> {
    if values == [] then [] else [Field(name, values[0])] + FieldsOf(name, values[1..])
  }

  function ForwardedOf(h: Header): seq<Field> {
    if Dropped(h.name) then [] else FieldsOf(h.name, h.values)
  }

  /** The upstream fields that are forwarded. */
  function Forwarded(hs: seq<Header>): seq<Field> {
    if hs == [] then [] else ForwardedOf(hs[0]) + Forwarded(hs[1..])
  }

  /** The one field the proxy adds to delimit the body. */
  function FramingField(r: Response): seq<Field> {
    if r.code == 101 then []
    else if r.contentLength >= 0 then [Field(CONTENT_LENGTH, Print(r.contentLength, 10))]
    else if r.close then [Field("Connection", "close")]
    else [Field(TRANSFER_ENCODING, "chunked")]
  }

  function StatusLine(r: Response): string {
    "HTTP/1.1 " + Print(r.code, 10) + " " + (if r.status == "" then r.statusText else r.status)
  }

  function Head(r: Response): string {
    StatusLine(r) + CRLF + FieldLines(Forwarded(r.headers) + FramingField(r)) + CRLF
  }

  function WireBody(r: Response): string {
    if r.contentLength == 0 then ""
    else if r.contentLength > 0 then Concat(r.pieces)
    else Encode(r.pieces)
  }

  lemma {:induction false} FieldLinesAppend(a: seq<Field>, b: seq<Field>)
    ensures FieldLines(a + b) == FieldLines(a) + FieldLines(b)
  {
    if a == [] {
      assert a + b == b;
    } else {
      assert (a + b)[1..] == a[1..] + b;
      FieldLinesAppend(a[1..], b);
      Associate(FieldLine(a[0]), FieldLines(a[1..]), FieldLines(b));
    }
  }

  // The same, written step by step

  method WriteField(w: ByteSink, name: string, value: string)
    modifies w
    ensures w.data == old(w.data) + FieldLine(Field(name, value))
  {
    w.Write(name + ": " + value + CRLF);
  }

  method WriteHeader(w: ByteSink, h: Header)
    modifies w
    ensures w.data == old(w.data) + FieldLines(FieldsOf(h.name, h.values))
  {
    var j := 0;
    while j < |h.values|
      invariant 0 <= j <= |h.values|
      invariant w.data + FieldLines(FieldsOf(h.name, h.values[j..])) == old(w.data) + FieldLines(FieldsOf(h.name, h.values))
    {
      WriteField(w, h.name, h.values[j]);
      assert FieldsOf(h.name, h.values[j..])[1..] == FieldsOf(h.name, h.values[j + 1..]);
      j := j + 1;
    }
  }

  lemma ForwardedStep(base: string, hs: seq<Header>, i: nat)
    requires i < |hs|
    ensures base + FieldLines(Forwarded(hs[i..])) ==
      (base + FieldLines(ForwardedOf(hs[i]))) + FieldLines(Forwarded(hs[i + 1..]))
    ensures Dropped(hs[i].name) ==> base + FieldLines(ForwardedOf(hs[i])) == base
  {
    assert hs[i..][1..] == hs[i + 1..];
    FieldLinesAppend(ForwardedOf(hs[i]), Forwarded(hs[i + 1..]));
    Associate(base, FieldLines(ForwardedOf(hs[i])), FieldLines(Forwarded(hs[i + 1..])));
  }

  /** Ranges over the header map, in whatever order, and forwards what is not dropped. */
  method WriteForwarded(w: ByteSink, hs: seq<Header>)
    modifies w
    ensures w.data == old(w.data) + FieldLines(Forwarded(hs))
  {
    var i := 0;
    while i < |hs|
      invariant 0 <= i <= |hs|
      invariant w.data + FieldLines(Forwarded(hs[i..])) == old(w.data) + FieldLines(Forwarded(hs))
    {
      ForwardedStep(w.data, hs, i);
      if !Dropped(hs[i].name) {
        WriteHeader(w, hs[i]);
      }
      i := i + 1;
    }
  }

  method WriteFraming(w: ByteSink, r: Response)
    modifies w
    ensures w.data == old(w.data) + FieldLines(FramingField(r))
  {
    if r.code != 101 {
      if r.contentLength >= 0 {
        WriteField(w, CONTENT_LENGTH, Print(r.contentLength, 10));
      } else if r.close {
        WriteField(w, "Connection", "close");
      } else {
        WriteField(w, TRANSFER_ENCODING, "chunked");
      }
    }
  }

  lemma RegroupHead(x: string, a: string, b: string, c: string, d: string)
    ensures x + a + b + c + d == x + (a + (b + c) + d)
  {
  }

  method LoopWriteHead(w: ByteSink, r: Response)
    modifies w
    ensures w.data == old(w.data) + Head(r)
  {
    w.Write(StatusLine(r) + CRLF);
    WriteForwarded(w, r.headers);
    WriteFraming(w, r);
    w.Write(CRLF);
    FieldLinesAppend(Forwarded(r.headers), FramingField(r));
    RegroupHead(old(w.data), StatusLine(r) + CRLF, FieldLines(Forwarded(r.headers)), FieldLines(FramingField(r)), CRLF);
  }

  method CopyBody(w: ByteSink, pieces: seq<string>)
    modifies w
    ensures w.data == old(w.data) + Concat(pieces)
  {
    var i := 0;
    while i < |pieces|
      invariant 0 <= i <= |pieces|
      invariant w.data + Concat(pieces[i..]) == old(w.data) + Concat(pieces)
    {
      assert pieces[i..][1..] == pieces[i + 1..];
      w.Write(pieces[i]);
      i := i + 1;
    }
  }

  lemma ChunksStep(base: string, pieces: seq<string>, i: nat)
    requires i < |pieces|
    ensures base + Chunks(pieces[i..]) == (base + Chunk(pieces[i])) + Chunks(pieces[i + 1..])
  {
    assert pieces[i..][1..] == pieces[i + 1..];
    Associate(base, Chunk(pieces[i]), Chunks(pieces[i + 1..]));
  }

  method CopyPieces(cw: ChunkedWriter, pieces: seq<string>)
    modifies cw.w
    ensures cw.w.data == old(cw.w.data) + Chunks(pieces)
  {
    var i := 0;
    assert pieces[0..] == pieces;
    while i < |pieces|
      invariant 0 <= i <= |pieces|
      invariant cw.w.data + Chunks(pieces[i..]) == old(cw.w.data) + Chunks(pieces)
    {
      ChunksStep(cw.w.data, pieces, i);
      var n := cw.Write(pieces[i]);
      i := i + 1;
    }
  }

  method CopyChunked(w: ByteSink, pieces: seq<string>)
    modifies w
    ensures w.data == old(w.data) + Encode(pieces)
  {
    var cw := new ChunkedWriter(w);
    CopyPieces(cw, pieces);
    cw.Close();
    Associate(old(w.data), Chunks(pieces), LAST_CHUNK);
  }

  method LoopWriteBody(w: ByteSink, r: Response)
    modifies w
    ensures w.data == old(w.data) + WireBody(r)
  {
    if r.contentLength == 0 {
      return;
    }
    if r.contentLength > 0 {
      CopyBody(w, r.pieces);
      return;
    }
    CopyChunked(w, r.pieces);
  }
}
