/** HTTP/1.1 chunked transfer coding: the proxy's writer and a decoder for section 7.1 of RFC 9112. */
module Chunked {
  import opened Verdicts
  import opened Text
  import opened Digits

  const CRLF := "\r\n"

  /** Where bytes go: a buffered connection. */
  class ByteSink {
    var data: string

    constructor ()
      ensures data == ""
    {
      data := "";
    }

    method Write(p: string)
      modifies this
      ensures data == old(data) + p
    {
      data := data + p;
    }
  }

  function Chunk(p: string): string {
    if p == "" then "" else Print(|p|, 16) + CRLF + p + CRLF
  }

  function Chunks(writes: seq<string>): string {
    if writes == [] then "" else Chunk(writes[0]) + Chunks(writes[1..])
  }

  const LAST_CHUNK := "0\r\n\r\n"

  function Encode(writes: seq<string>): string {
    Chunks(writes) + LAST_CHUNK
  }

  class ChunkedWriter {
    const w: ByteSink

    constructor (w: ByteSink)
      ensures this.w == w
    {
      this.w := w;
    }

    /** One chunk for each non-empty write; an empty one must not emit the chunk that ends the body. */
    method Write(p: string) returns (n: nat)
      modifies w
      ensures w.data == old(w.data) + Chunk(p) && n == |p|
    {
      if |p| == 0 {
        return 0;
      }
      w.Write(Print(|p|, 16) + CRLF);
      w.Write(p);
      w.Write(CRLF);
      return |p|;
    }

    method Close()
      modifies w
      ensures w.data == old(w.data) + LAST_CHUNK
    {
      w.Write(LAST_CHUNK);
    }
  }

  // The decoder

  /** The text up to the first CRLF, and what follows it. */
  function ReadLine(s: string): (r: Option<(string, string)>)
    ensures r.Some? ==> |r.value.1| < |s|
  {
    if |s| < 2 then None
    else if s[..2] == CRLF then Some(("", s[2..]))
    else
      var r := ReadLine(s[1..]);
      if r.None? then None else Some(([s[0]] + r.value.0, r.value.1))
  }

  lemma {:induction false} ReadLineExact(line: string, rest: string)
    requires '\r' !in line
    ensures ReadLine(line + CRLF + rest) == Some((line, rest))
  {
    var s := line + CRLF + rest;
    if line == "" {
      assert s[..2] == CRLF && s[2..] == rest;
    } else {
      assert s[..2][0] == line[0] && CRLF[0] == '\r';
      assert s[1..] == line[1..] + CRLF + rest;
      ReadLineExact(line[1..], rest);
      assert [line[0]] + line[1..] == line;
    }
  }

  /** The chunk-size part of a chunk header, before any chunk extension. */
  function BeforeSemicolon(line: string): string {
    if line == "" || line[0] == ';' then "" else [line[0]] + BeforeSemicolon(line[1..])
  }

  lemma {:induction false} NoExtension(line: string)
    requires ';' !in line
    ensures BeforeSemicolon(line) == line
  {
    if line != "" {
      NoExtension(line[1..]);
    }
  }

  /** Trailer fields are skipped up to the empty line. */
  function SkipTrailers(s: string): Option<string>
    decreases |s|
  {
    var line := ReadLine(s);
    if line.None? then None
    else if line.value.0 == "" then Some(line.value.1)
    else SkipTrailers(line.value.1)
  }

  /** The decoded body and what follows it, or None if the input is malformed or cut short. */
  function Decode(s: string): Option<(string, string)>
    decreases |s|
  {
    var header := ReadLine(s);
    if header.None? then None
    else
      var size := Parse(BeforeSemicolon(header.value.0), 16);
      var rest := header.value.1;
      if size.None? then None
      else if size.value == 0 then
        var after := SkipTrailers(rest);
        if after.None? then None else Some(("", after.value))
      else if |rest| < size.value + 2 || rest[size.value..size.value + 2] != CRLF then None
      else
        var more := Decode(rest[size.value + 2..]);
        if more.None? then None else Some((rest[..size.value] + more.value.0, more.value.1))
  }

  lemma RegroupChunk(a: string, b: string, c: string, d: string)
    ensures (a + b + c + b) + d == a + b + (c + b + d)
  {
  }

  lemma ChunkText(p: string, rest: string)
    requires p != ""
    ensures Chunk(p) + rest == Print(|p|, 16) + CRLF + (p + CRLF + rest)
  {
    var size := Print(|p|, 16);
    assert Chunk(p) == size + CRLF + p + CRLF;
    RegroupChunk(size, CRLF, p, rest);
  }

  lemma DecodeSized(size: string, p: string, rest: string)
    requires '\r' !in size && ';' !in size && p != "" && Parse(size, 16) == Some(|p|)
    ensures Decode(size + CRLF + (p + CRLF + rest)) ==
      (if Decode(rest).None? then None else Some((p + Decode(rest).value.0, Decode(rest).value.1)))
  {
    var after := p + CRLF + rest;
    ReadLineExact(size, after);
    NoExtension(size);
    assert after[..|p|] == p && after[|p|..|p| + 2] == CRLF && after[|p| + 2..] == rest;
  }

  lemma DecodeChunk(p: string, rest: string)
    requires p != ""
    ensures Decode(Chunk(p) + rest) ==
      (if Decode(rest).None? then None else Some((p + Decode(rest).value.0, Decode(rest).value.1)))
  {
    ChunkText(p, rest);
    ParsePrint(|p|, 16);
    DecodeSized(Print(|p|, 16), p, rest);
  }

  lemma DecodeLastChunk(tail: string)
    ensures Decode(LAST_CHUNK + tail) == Some(("", tail))
  {
    assert LAST_CHUNK + tail == "0" + CRLF + (CRLF + tail);
    ReadLineExact("0", CRLF + tail);
    NoExtension("0");
    assert Parse("0", 16) == Some(0);
    assert CRLF + tail == "" + CRLF + tail;
    ReadLineExact("", tail);
  }

  lemma EncodeStep(writes: seq<string>, tail: string)
    requires writes != []
    ensures Encode(writes) + tail == Chunk(writes[0]) + (Encode(writes[1..]) + tail)
  {
    var a, b := Chunk(writes[0]), Chunks(writes[1..]);
    assert Chunks(writes) == a + b;
    assert ((a + b) + LAST_CHUNK) + tail == a + ((b + LAST_CHUNK) + tail);
  }

  /** Round trip: for every sequence of writes, empty ones included, and whatever follows on the
      connection, the decoder returns the concatenation of the writes and leaves the rest untouched. */
  lemma {:induction false} ChunkedRoundTrip(writes: seq<string>, tail: string)
    ensures Decode(Encode(writes) + tail) == Some((Concat(writes), tail))
  {
    if writes == [] {
      assert Encode(writes) + tail == LAST_CHUNK + tail;
      DecodeLastChunk(tail);
    } else {
      ChunkedRoundTrip(writes[1..], tail);
      EncodeStep(writes, tail);
      if writes[0] == "" {
        assert Chunk(writes[0]) + (Encode(writes[1..]) + tail) == Encode(writes[1..]) + tail;
        assert writes[0] + Concat(writes[1..]) == Concat(writes[1..]);
      } else {
        DecodeChunk(writes[0], Encode(writes[1..]) + tail);
      }
    }
  }
}
