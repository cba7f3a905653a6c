/** Splitting an optional port off a host, as net.SplitHostPort does. */
module HostPort {
  import opened Verdicts

  /** The position of the first c in s, or the length of s. */
  function FirstIndex(s: string, c: char): (i: nat)
    ensures i <= |s| && c !in s[..i] && (i < |s| ==> s[i] == c)
  {
    if s == "" || s[0] == c then 0 else 1 + FirstIndex(s[1..], c)
  }

  /** What follows the last c in s, which has one. */
  function AfterLast(s: string, c: char): (t: string)
    requires c in s
    ensures |t| < |s| && s[|s| - |t| - 1] == c && s[|s| - |t|..] == t && c !in t
  {
    if c in s[1..] then AfterLast(s[1..], c) else s[1..]
  }

  /** The host before the last colon, without the brackets around an address with colons; None if there is
      no port, or anything is out of place. */
  function SplitHostPort(s: string): Option<string> {
    if ':' !in s then None
    else
      var i := |s| - |AfterLast(s, ':')| - 1;
      if s[0] == '[' then
        var end := FirstIndex(s, ']');
        if end == |s| || end + 1 != i then None
        else if '[' in s[1..] || ']' in s[end + 1..] then None
        else Some(s[1..end])
      else if ':' in s[..i] || '[' in s || ']' in s then None
      else Some(s[..i])
  }

  predicate Plain(s: string) {
    ':' !in s && '[' !in s && ']' !in s
  }

  /** The two forms that have a port: host:port, and [address]:port. */
  predicate HasPort(s: string, host: string, port: string) {
    && Plain(port)
    && ((Plain(host) && s == host + ":" + port)
        || ('[' !in host && ']' !in host && s == "[" + host + "]:" + port))
  }

  lemma LastColon(s: string, i: nat)
    requires i < |s| && s[i] == ':' && ':' !in s[i + 1..]
    ensures AfterLast(s, ':') == s[i + 1..]
  {
    var j := |s| - |AfterLast(s, ':')| - 1;
    forall k | i < k < |s| ensures s[k] != ':' {
      assert s[k] == s[i + 1..][k - i - 1];
    }
    forall k | j < k < |s| ensures s[k] != ':' {
      assert s[k] == s[j + 1..][k - j - 1];
    }
    assert i == j;
  }

  lemma FirstIndexAt(s: string, c: char, i: nat)
    requires i < |s| && s[i] == c && c !in s[..i]
    ensures FirstIndex(s, c) == i
  {
    var j := FirstIndex(s, c);
    forall k | 0 <= k < i ensures s[k] != c {
      assert s[k] == s[..i][k];
    }
    forall k | 0 <= k < j ensures s[k] != c {
      assert s[k] == s[..j][k];
    }
  }

  lemma SplitInvertsName(host: string, port: string)
    requires Plain(host) && Plain(port)
    ensures SplitHostPort(host + ":" + port) == Some(host)
  {
    var s, i := host + ":" + port, |host|;
    assert s[i] == ':' && s[i + 1..] == port && s[..i] == host;
    LastColon(s, i);
    assert s[0] == (host + ":")[0];
  }

  lemma SplitInvertsAddress(host: string, port: string)
    requires Plain(port) && '[' !in host && ']' !in host
    ensures SplitHostPort("[" + host + "]:" + port) == Some(host)
  {
    var s, end := "[" + host + "]:" + port, |host| + 1;
    assert s[end] == ']' && s[end + 1] == ':' && s[end + 2..] == port && s[1..end] == host;
    assert s[..end] == "[" + host;
    FirstIndexAt(s, ']', end);
    LastColon(s, end + 1);
    assert s[1..] == host + "]:" + port && s[end + 1..] == ":" + port;
  }

  lemma NameParts(s: string, i: nat)
    requires i < |s| && s[i] == ':'
    ensures s == s[..i] + ":" + s[i + 1..]
  {
  }

  lemma NameIsClean(s: string, i: nat)
    requires i < |s| && '[' !in s && ']' !in s && ':' !in s[..i] && ':' !in s[i + 1..]
    ensures Plain(s[..i]) && Plain(s[i + 1..])
  {
    assert forall c :: c in s[..i] ==> c in s;
    assert forall c :: c in s[i + 1..] ==> c in s;
  }

  lemma SplitFindsName(s: string, host: string)
    requires SplitHostPort(s) == Some(host) && s[0] != '['
    ensures HasPort(s, host, AfterLast(s, ':'))
  {
    var i := |s| - |AfterLast(s, ':')| - 1;
    assert AfterLast(s, ':') == s[i + 1..];
    NameParts(s, i);
    NameIsClean(s, i);
  }

  lemma AddressParts(s: string, end: nat)
    requires 1 <= end && end + 2 <= |s| && s[0] == '[' && s[end] == ']' && s[end + 1] == ':'
    ensures s == "[" + s[1..end] + "]:" + s[end + 2..]
  {
    assert s[..1] == "[" && s[end..end + 2] == "]:";
  }

  lemma AddressIsClean(s: string, end: nat)
    requires 1 <= end && end + 2 <= |s|
    requires '[' !in s[1..] && ']' !in s[..end] && ']' !in s[end + 1..] && ':' !in s[end + 2..]
    ensures '[' !in s[1..end] && ']' !in s[1..end] && Plain(s[end + 2..])
  {
    assert s[1..end] == s[1..][0..end - 1] == s[..end][1..end];
    assert s[end + 2..] == s[1..][end + 1..|s| - 1] == s[end + 1..][1..|s| - end - 1];
  }

  lemma SplitFindsAddress(s: string, host: string)
    requires SplitHostPort(s) == Some(host) && s[0] == '['
    ensures HasPort(s, host, AfterLast(s, ':'))
  {
    var end := FirstIndex(s, ']');
    assert AfterLast(s, ':') == s[end + 2..];
    AddressParts(s, end);
    AddressIsClean(s, end);
  }

  /** A host is split off exactly from strings of the two forms, and then it is the host of that form. */
  lemma SplitIffHasPort(s: string, host: string)
    ensures SplitHostPort(s) == Some(host) <==> exists port :: HasPort(s, host, port)
  {
    if SplitHostPort(s) == Some(host) {
      if s[0] == '[' {
        SplitFindsAddress(s, host);
      } else {
        SplitFindsName(s, host);
      }
    }
    if exists port :: HasPort(s, host, port) {
      var port :| HasPort(s, host, port);
      if Plain(host) && s == host + ":" + port {
        SplitInvertsName(host, port);
      } else {
        SplitInvertsAddress(host, port);
      }
    }
  }

  /** No port is split off exactly from strings that have neither form. */
  lemma NoPortIff(s: string)
    ensures SplitHostPort(s).None? <==> forall host, port :: !HasPort(s, host, port)
  {
    if SplitHostPort(s).Some? {
      SplitIffHasPort(s, SplitHostPort(s).value);
    }
    forall host, port | HasPort(s, host, port) ensures SplitHostPort(s).Some? {
      SplitIffHasPort(s, host);
    }
  }
}
