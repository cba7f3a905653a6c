/** The structured data of an access-log message, and a parser for section 6.3 of RFC 5424. */
module Syslog {
  import opened Verdicts
  import opened Digits

  datatype AccessRecord = AccessRecord(
    requestID: string, clientIP: string, xForwardedFor: string, method_: string, scheme: string, host: string,
    path: string, statusCode: int, bytesSent: int, durationMS: int, userAgent: string, contentType: string,
    tlsVersion: string, tlsCipher: string, eventType: string, blockReason: string)

  datatype Param = Param(name: string, value: string)

  const SD_ID := "httpAccess@32473"

  function Nilify(s: string): string {
    if s == "" then "-" else s
  }

  /** The sixteen parameters, in the order they are written. */
  function Params(r: AccessRecord): seq<Param> {
    [ Param("eventType", if r.eventType == "" then "access" else r.eventType),
      Param("blockReason", r.blockReason),
      Param("requestId", r.requestID),
      Param("clientIP", r.clientIP),
      Param("xForwardedFor", r.xForwardedFor),
      Param("method", r.method_),
      Param("scheme", r.scheme),
      Param("host", r.host),
      Param("path", r.path),
      Param("status", PrintInt(r.statusCode)),
      Param("bytes", PrintInt(r.bytesSent)),
      Param("durationMS", PrintInt(r.durationMS)),
      Param("userAgent", r.userAgent),
      Param("contentType", r.contentType),
      Param("tlsVersion", r.tlsVersion),
      Param("tlsCipher", r.tlsCipher) ]
  }

  // Escaping

  /** strings.ReplaceAll for a one-character pattern. */
  function ReplaceAll(s: string, c: char, text: string): string {
    if s == "" then "" else (if s[0] == c then text else [s[0]]) + ReplaceAll(s[1..], c, text)
  }

  /** The three replacements, one after the other, the backslash first. */
  function EscapeSyslog(s: string): string {
    ReplaceAll(ReplaceAll(ReplaceAll(s, '\\', "\\\\"), '"', "\\\""), ']', "\\]")
  }

  predicate Special(c: char) {
    c == '\\' || c == '"' || c == ']'
  }

  /** Every special character gets one backslash in front. */
  function EscapeOnce(s: string): string {
    if s == "" then "" else (if Special(s[0]) then ['\\', s[0]] else [s[0]]) + EscapeOnce(s[1..])
  }

  lemma {:induction false} ReplaceAllAppend(a: string, b: string, c: char, text: string)
    ensures ReplaceAll(a + b, c, text) == ReplaceAll(a, c, text) + ReplaceAll(b, c, text)
  {
    if a == "" {
      assert a + b == b;
    } else {
      assert (a + b)[1..] == a[1..] + b;
      ReplaceAllAppend(a[1..], b, c, text);
    }
  }

  lemma ReplaceOne(x: char, c: char, text: string)
    ensures ReplaceAll([x], c, text) == if x == c then text else [x]
  {
    assert [x][1..] == "";
  }

  lemma ReplaceTwo(x: char, y: char, c: char, text: string)
    ensures ReplaceAll([x, y], c, text) == (if x == c then text else [x]) + (if y == c then text else [y])
  {
    assert [x, y][1..] == [y];
    ReplaceOne(y, c, text);
  }

  lemma EscapeChar(x: char)
    ensures EscapeSyslog([x]) == if Special(x) then ['\\', x] else [x]
  {
    ReplaceOne(x, '\\', "\\\\");
    ReplaceOne(x, '"', "\\\"");
    ReplaceOne(x, ']', "\\]");
    ReplaceTwo('\\', '\\', '"', "\\\"");
    ReplaceTwo('\\', '\\', ']', "\\]");
    ReplaceTwo('\\', '"', ']', "\\]");
  }

  /** The three successive replacements never act on each other's output: together they are one
      character-wise escape. */
  lemma {:induction false} ThreeReplacementsAreOne(s: string)
    ensures EscapeSyslog(s) == EscapeOnce(s)
  {
    if s != "" {
      var a, b := [s[0]], s[1..];
      assert s == a + b;
      ReplaceAllAppend(a, b, '\\', "\\\\");
      var a1, b1 := ReplaceAll(a, '\\', "\\\\"), ReplaceAll(b, '\\', "\\\\");
      ReplaceAllAppend(a1, b1, '"', "\\\"");
      ReplaceAllAppend(ReplaceAll(a1, '"', "\\\""), ReplaceAll(b1, '"', "\\\""), ']', "\\]");
      EscapeChar(s[0]);
      ThreeReplacementsAreOne(b);
    }
  }

  // Printing

  function ParamText(p: Param): string {
    " " + p.name + "=\"" + EscapeSyslog(Nilify(p.value)) + "\""
  }

  function ParamsText(ps: seq<Param>): string {
    if ps == [] then "" else ParamText(ps[0]) + ParamsText(ps[1..])
  }

  function SDText(ps: seq<Param>): string {
    "[" + SD_ID + ParamsText(ps) + "]"
  }

  method BuildSD(r: AccessRecord) returns (sb: string)
    ensures sb == SDText(Params(r))
  {
    var fields := Params(r);
    sb := "[" + SD_ID;
    var i := 0;
    while i < |fields|
      invariant 0 <= i <= |fields|
      invariant sb + ParamsText(fields[i..]) == "[" + SD_ID + ParamsText(fields)
    {
      assert fields[i..][1..] == fields[i + 1..];
      sb := AppendParam(sb, fields[i], fields[i + 1..]);
      i := i + 1;
    }
    sb := sb + "]";
  }

  method AppendParam(sb: string, f: Param, ghost rest: seq<Param>) returns (more: string)
    ensures more == sb + ParamText(f)
    ensures more + ParamsText(rest) == sb + (ParamText(f) + ParamsText(rest))
  {
    var text := " " + f.name + "=\"" + EscapeSyslog(Nilify(f.value)) + "\"";
    more := sb + text;
    assert (sb + text) + ParamsText(rest) == sb + (text + ParamsText(rest));
  }

  // Parsing

  /** A parameter value up to its closing quote: a backslash before a special character is dropped, a
      backslash before anything else stands for itself, an unescaped bracket is an error. */
  function ParseValue(s: string): (r: Option<(string, string)>)
    ensures r.Some? ==> |r.value.1| < |s|
  {
    if s == "" then None
    else if s[0] == '"' then Some(("", s[1..]))
    else if s[0] == ']' then None
    else if s[0] == '\\' && |s| > 1 && Special(s[1]) then
      var more := ParseValue(s[2..]);
      if more.None? then None else Some(([s[1]] + more.value.0, more.value.1))
    else
      var more := ParseValue(s[1..]);
      if more.None? then None else Some(([s[0]] + more.value.0, more.value.1))
  }

  /** An SD-NAME ends before '=', a space, a bracket or a quote. */
  predicate NameChar(c: char) {
    c != '=' && c != ' ' && c != ']' && c != '"'
  }

  function ParseName(s: string): (r: (string, string))
    ensures |r.1| <= |s|
  {
    if s == "" || !NameChar(s[0]) then ("", s)
    else var more := ParseName(s[1..]); ([s[0]] + more.0, more.1)
  }

  function ParseParams(s: string): Option<(seq<Param>, string)>
    decreases |s|
  {
    if s == "" then None
    else if s[0] == ']' then Some(([], s[1..]))
    else if s[0] != ' ' then None
    else
      var name := ParseName(s[1..]);
      if name.0 == "" || |name.1| < 2 || name.1[..2] != "=\"" then None
      else
        var value := ParseValue(name.1[2..]);
        if value.None? then None
        else
          var more := ParseParams(value.value.1);
          if more.None? then None
          else Some(([Param(name.0, value.value.0)] + more.value.0, more.value.1))
  }

  /** An SD-ELEMENT: its id, its parameters and what follows it. */
  function ParseSD(s: string): Option<(string, seq<Param>, string)> {
    if s == "" || s[0] != '[' then None
    else
      var id := ParseName(s[1..]);
      var params := ParseParams(id.1);
      if id.0 == "" || params.None? then None else Some((id.0, params.value.0, params.value.1))
  }

  // Round trip

  lemma {:induction false} ParseValueExact(v: string, rest: string)
    ensures ParseValue(EscapeOnce(v) + "\"" + rest) == Some((v, rest))
  {
    var s := EscapeOnce(v) + "\"" + rest;
    if v == "" {
      assert s[1..] == rest;
    } else {
      ParseValueExact(v[1..], rest);
      var after := EscapeOnce(v[1..]) + "\"" + rest;
      assert [v[0]] + v[1..] == v;
      if Special(v[0]) {
        assert s == ['\\', v[0]] + after;
        assert s[2..] == after;
      } else {
        assert s == [v[0]] + after;
        assert s[1..] == after;
      }
    }
  }

  predicate IsName(s: string) {
    s != "" && forall i :: 0 <= i < |s| ==> NameChar(s[i])
  }

  lemma {:induction false} ParseNameExact(name: string, rest: string)
    requires forall i :: 0 <= i < |name| ==> NameChar(name[i])
    requires rest != "" && !NameChar(rest[0])
    ensures ParseName(name + rest) == (name, rest)
  {
    if name == "" {
      assert name + rest == rest;
    } else {
      assert (name + rest)[1..] == name[1..] + rest;
      ParseNameExact(name[1..], rest);
      assert [name[0]] + name[1..] == name;
    }
  }

  function Nilified(ps: seq<Param>): seq<Param> {
    if ps == [] then [] else [Param(ps[0].name, Nilify(ps[0].value))] + Nilified(ps[1..])
  }

  lemma ParamThenRest(name: string, value: string, after: string)
    ensures (" " + name + "=\"" + value + "\"") + after == " " + (name + ("=\"" + (value + "\"" + after)))
  {
  }

  lemma ParseOneParam(p: Param, after: string)
    requires IsName(p.name)
    ensures ParseParams(ParamText(p) + after) ==
      if ParseParams(after).None? then None
      else Some(([Param(p.name, Nilify(p.value))] + ParseParams(after).value.0, ParseParams(after).value.1))
  {
    var v := Nilify(p.value);
    ThreeReplacementsAreOne(v);
    ParamThenRest(p.name, EscapeOnce(v), after);
    var afterName := "=\"" + (EscapeOnce(v) + "\"" + after);
    ParseNameExact(p.name, afterName);
    ParseValueExact(v, after);
    assert afterName[..2] == "=\"" && afterName[2..] == EscapeOnce(v) + "\"" + after;
    assert (" " + (p.name + afterName))[1..] == p.name + afterName;
  }

  lemma {:induction false} ParseParamsExact(ps: seq<Param>, rest: string)
    requires forall i :: 0 <= i < |ps| ==> IsName(ps[i].name)
    ensures ParseParams(ParamsText(ps) + "]" + rest) == Some((Nilified(ps), rest))
  {
    if ps == [] {
      assert (ParamsText(ps) + "]" + rest)[1..] == rest;
    } else {
      ParseParamsExact(ps[1..], rest);
      var after := ParamsText(ps[1..]) + "]" + rest;
      ParseOneParam(ps[0], after);
      assert ParamsText(ps) + "]" + rest == ParamText(ps[0]) + after;
    }
  }

  lemma IdIsName()
    ensures IsName(SD_ID)
  {
  }

  lemma ElementThenRest(params: string, rest: string)
    ensures ("[" + SD_ID + params + "]" + rest)[1..] == SD_ID + (params + "]" + rest)
  {
  }

  lemma ParseElement(ps: seq<Param>, rest: string)
    requires ps != [] && forall i :: 0 <= i < |ps| ==> IsName(ps[i].name)
    ensures ParseSD(SDText(ps) + rest) == Some((SD_ID, Nilified(ps), rest))
  {
    var after := ParamsText(ps) + "]" + rest;
    ParseParamsExact(ps, rest);
    ElementThenRest(ParamsText(ps), rest);
    assert after[0] == ' ';
    IdIsName();
    ParseNameExact(SD_ID, after);
  }

  lemma RequestNamesAreValid()
    ensures IsName("eventType") && IsName("blockReason") && IsName("requestId") && IsName("clientIP")
    ensures IsName("xForwardedFor") && IsName("method") && IsName("scheme") && IsName("host")
  {
  }

  lemma ResponseNamesAreValid()
    ensures IsName("path") && IsName("status") && IsName("bytes") && IsName("durationMS")
    ensures IsName("userAgent") && IsName("contentType") && IsName("tlsVersion") && IsName("tlsCipher")
  {
  }

  lemma NamesAreValid(r: AccessRecord)
    ensures forall i :: 0 <= i < |Params(r)| ==> IsName(Params(r)[i].name)
  {
    RequestNamesAreValid();
    ResponseNamesAreValid();
  }

  /** Round trip: for all field contents, the parser returns the id and exactly the sixteen names with
      their nilified values, and leaves what follows. */
  lemma SDRoundTrip(r: AccessRecord, rest: string)
    ensures ParseSD(SDText(Params(r)) + rest) == Some(("httpAccess@32473", Nilified(Params(r)), rest))
    ensures |Nilified(Params(r))| == 16
    ensures forall i :: 0 <= i < 16 ==>
      Nilified(Params(r))[i] == Param(Params(r)[i].name, Nilify(Params(r)[i].value))
  {
    NamesAreValid(r);
    ParseElement(Params(r), rest);
    NilifiedAt(Params(r));
  }

  lemma {:induction false} NilifiedAt(ps: seq<Param>)
    ensures |Nilified(ps)| == |ps|
    ensures forall i :: 0 <= i < |ps| ==> Nilified(ps)[i] == Param(ps[i].name, Nilify(ps[i].value))
  {
    if ps != [] {
      NilifiedAt(ps[1..]);
    }
  }

  /** The parameter read back at a place has that name and that content, with a hyphen for an empty one. */
  predicate Reads(r: AccessRecord, i: nat, name: string, content: string) {
    var read := ParseSD(SDText(Params(r)));
    read.Some? && i < |read.value.1| && read.value.1[i] == Param(name, if content == "" then "-" else content)
  }

  lemma ReadsAt(r: AccessRecord, i: nat, name: string, content: string)
    requires i < 16 && Params(r)[i] == Param(name, content)
    ensures Reads(r, i, name, content)
  {
    SDRoundTrip(r, "");
    assert SDText(Params(r)) + "" == SDText(Params(r));
  }

  /** Each name is read back with the content of the field it names: the event. */
  lemma EventIsRead(r: AccessRecord)
    ensures Reads(r, 0, "eventType", if r.eventType == "" then "access" else r.eventType)
    ensures Reads(r, 1, "blockReason", r.blockReason) && Reads(r, 2, "requestId", r.requestID)
    ensures Reads(r, 3, "clientIP", r.clientIP)
  {
    ReadsAt(r, 0, "eventType", if r.eventType == "" then "access" else r.eventType);
    ReadsAt(r, 1, "blockReason", r.blockReason);
    ReadsAt(r, 2, "requestId", r.requestID);
    ReadsAt(r, 3, "clientIP", r.clientIP);
  }

  /** The request. */
  lemma RequestIsRead(r: AccessRecord)
    ensures Reads(r, 4, "xForwardedFor", r.xForwardedFor) && Reads(r, 5, "method", r.method_)
    ensures Reads(r, 6, "scheme", r.scheme) && Reads(r, 7, "host", r.host)
  {
    ReadsAt(r, 4, "xForwardedFor", r.xForwardedFor);
    ReadsAt(r, 5, "method", r.method_);
    ReadsAt(r, 6, "scheme", r.scheme);
    ReadsAt(r, 7, "host", r.host);
  }

  /** The response; the numbers read back as numbers. */
  lemma ResponseIsRead(r: AccessRecord)
    ensures Reads(r, 8, "path", r.path)
    ensures exists s :: Reads(r, 9, "status", s) && ParseInt(s) == Some(r.statusCode)
    ensures exists s :: Reads(r, 10, "bytes", s) && ParseInt(s) == Some(r.bytesSent)
    ensures exists s :: Reads(r, 11, "durationMS", s) && ParseInt(s) == Some(r.durationMS)
    ensures Reads(r, 12, "userAgent", r.userAgent) && Reads(r, 13, "contentType", r.contentType)
    ensures Reads(r, 14, "tlsVersion", r.tlsVersion) && Reads(r, 15, "tlsCipher", r.tlsCipher)
  {
    ReadsAt(r, 8, "path", r.path);
    ReadsAt(r, 9, "status", PrintInt(r.statusCode));
    ReadsAt(r, 10, "bytes", PrintInt(r.bytesSent));
    ReadsAt(r, 11, "durationMS", PrintInt(r.durationMS));
    ReadsAt(r, 12, "userAgent", r.userAgent);
    ReadsAt(r, 13, "contentType", r.contentType);
    ReadsAt(r, 14, "tlsVersion", r.tlsVersion);
    ReadsAt(r, 15, "tlsCipher", r.tlsCipher);
    ParsePrintInt(r.statusCode);
    ParsePrintInt(r.bytesSent);
    ParsePrintInt(r.durationMS);
  }

  lemma {:induction false} TextIsOfNilified(ps: seq<Param>)
    ensures ParamsText(ps) == ParamsText(Nilified(ps))
  {
    if ps != [] {
      TextIsOfNilified(ps[1..]);
      assert Nilified(ps)[1..] == Nilified(ps[1..]);
      assert ParamText(ps[0]) == ParamText(Nilified(ps)[0]);
    }
  }

  /** Two records are written alike if and only if their parameters agree once nilified: all that is lost is
      the difference between an empty field and a hyphen. */
  lemma WrittenAlikeIff(a: AccessRecord, b: AccessRecord)
    ensures SDText(Params(a)) == SDText(Params(b)) <==> Nilified(Params(a)) == Nilified(Params(b))
  {
    SDRoundTrip(a, "");
    SDRoundTrip(b, "");
    assert SDText(Params(a)) + "" == SDText(Params(a)) && SDText(Params(b)) + "" == SDText(Params(b));
    TextIsOfNilified(Params(a));
    TextIsOfNilified(Params(b));
  }

  /** Such a pair: a record without a host and one whose host is a hyphen. */
  lemma EmptyLooksLikeHyphen(r: AccessRecord)
    ensures SDText(Params(r.(host := ""))) == SDText(Params(r.(host := "-")))
  {
    var a, b := Params(r.(host := "")), Params(r.(host := "-"));
    NilifiedAt(a);
    NilifiedAt(b);
    forall i | 0 <= i < 16 ensures Nilified(a)[i] == Nilified(b)[i] {
      assert i != 7 ==> a[i] == b[i];
    }
    WrittenAlikeIff(r.(host := ""), r.(host := "-"));
  }
}
