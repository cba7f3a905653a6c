/** ASCII text helpers shared by the modules that work on strings. */
module Text {

  predicate IsSpace(c: char) {
    c == ' ' || '\t' <= c <= '\r'
  }

  function TrimLeft(s: string): string {
    if s != "" && IsSpace(s[0]) then TrimLeft(s[1..]) else s
  }

  function TrimRight(s: string): string {
    if s != "" && IsSpace(s[|s| - 1]) then TrimRight(s[..|s| - 1]) else s
  }

  function LowerChar(c: char): char {
    if 'A' <= c <= 'Z' then ((c as int) + 32) as char else c
  }

  function Lower(s: string): string {
    seq(|s|, i requires 0 <= i < |s| => LowerChar(s[i]))
  }

  /** Lower case is letter by letter, and only for the letters A to Z. */
  lemma LowerExact(s: string, i: nat)
    requires i < |s|
    ensures |Lower(s)| == |s|
    ensures 'A' <= s[i] <= 'Z' ==> Lower(s)[i] == "abcdefghijklmnopqrstuvwxyz"[(s[i] - 'A') as int]
    ensures !('A' <= s[i] <= 'Z') ==> Lower(s)[i] == s[i]
  {
    var letters := "abcdefghijklmnopqrstuvwxyz";
    assert forall k :: 0 <= k < 26 ==> letters[k] as int == 97 + k;
  }

  // Blanks

  /** Only space, tab, line feed, vertical tab, form feed and carriage return. */
  predicate Blank(s: string) {
    forall c :: c in s ==> c in " \t\n\U{0b}\U{0c}\r"
  }

  /** Neither end is a blank. */
  predicate Solid(s: string) {
    s == "" || (!Blank([s[0]]) && !Blank([s[|s| - 1]]))
  }

  lemma SpaceIsBlank(c: char)
    ensures IsSpace(c) <==> Blank([c])
  {
    assert Blank([c]) <==> c in " \t\n\U{0b}\U{0c}\r";
  }

  lemma {:induction false} TrimLeftExact(pre: string, rest: string)
    requires Blank(pre) && (rest == "" || !IsSpace(rest[0]))
    ensures TrimLeft(pre + rest) == rest
  {
    if pre == "" {
      assert pre + rest == rest;
    } else {
      SpaceIsBlank(pre[0]);
      assert Blank([pre[0]]);
      assert (pre + rest)[1..] == pre[1..] + rest;
      TrimLeftExact(pre[1..], rest);
    }
  }

  lemma {:induction false} TrimRightExact(core: string, post: string)
    requires Blank(post) && (core == "" || !IsSpace(core[|core| - 1]))
    ensures TrimRight(core + post) == core
    decreases |post|
  {
    if post == "" {
      assert core + post == core;
    } else {
      var last := |post| - 1;
      SpaceIsBlank(post[last]);
      assert Blank([post[last]]);
      assert (core + post)[..|core + post| - 1] == core + post[..last];
      TrimRightExact(core, post[..last]);
    }
  }

  lemma TrimExact(pre: string, core: string, post: string)
    requires Blank(pre) && Blank(post) && Solid(core)
    ensures TrimRight(TrimLeft(pre + core + post)) == core
  {
    assert pre + core + post == pre + (core + post);
    if core == "" {
      assert pre + (core + post) == (pre + post) + "";
      TrimLeftExact(pre + post, "");
    } else {
      SpaceIsBlank(core[0]);
      SpaceIsBlank(core[|core| - 1]);
      TrimLeftExact(pre, core + post);
      TrimRightExact(core, post);
    }
  }

  lemma {:induction false} TrimLeftSplits(s: string) returns (pre: string)
    ensures s == pre + TrimLeft(s) && Blank(pre) && (TrimLeft(s) == "" || !IsSpace(TrimLeft(s)[0]))
  {
    pre := "";
    if s != "" && IsSpace(s[0]) {
      SpaceIsBlank(s[0]);
      pre := TrimLeftSplits(s[1..]);
      pre := [s[0]] + pre;
    }
  }

  lemma {:induction false} TrimRightSplits(s: string) returns (post: string)
    ensures s == TrimRight(s) + post && Blank(post) && (TrimRight(s) == "" || !IsSpace(TrimRight(s)[|TrimRight(s)| - 1]))
    decreases |s|
  {
    post := "";
    if s != "" && IsSpace(s[|s| - 1]) {
      SpaceIsBlank(s[|s| - 1]);
      post := TrimRightSplits(s[..|s| - 1]);
      post := post + [s[|s| - 1]];
    }
  }

  /** Trimming takes the blanks off both ends, all of them and nothing else. */
  lemma TrimIff(s: string, core: string)
    ensures TrimRight(TrimLeft(s)) == core <==>
      exists pre, post :: s == pre + core + post && Blank(pre) && Blank(post) && Solid(core)
  {
    if TrimRight(TrimLeft(s)) == core {
      var pre := TrimLeftSplits(s);
      var post := TrimRightSplits(TrimLeft(s));
      assert s == pre + core + post;
      if core != "" {
        SpaceIsBlank(core[0]);
        SpaceIsBlank(core[|core| - 1]);
        assert TrimLeft(s)[0] == core[0];
      }
    }
    if exists pre, post :: s == pre + core + post && Blank(pre) && Blank(post) && Solid(core) {
      var pre, post :| s == pre + core + post && Blank(pre) && Blank(post) && Solid(core);
      TrimExact(pre, core, post);
    }
  }

  predicate HasPrefix(s: string, p: string) {
    |p| <= |s| && s[..|p|] == p
  }

  predicate EndsWith(s: string, suffix: string) {
    |suffix| <= |s| && s[|s| - |suffix|..] == suffix
  }

  /** Equality up to the case of ASCII letters. */
  predicate FoldEqual(a: string, b: string) {
    Lower(a) == Lower(b)
  }

  lemma Associate<T>(a: seq<T>, b: seq<T>, c: seq<T>)
    ensures (a + b) + c == a + (b + c)
  {
  }

  function Concat(pieces: seq<string>): string {
    if pieces == [] then "" else pieces[0] + Concat(pieces[1..])
  }

  lemma {:induction false} ConcatAppend(a: seq<string>, b: seq<string>)
    ensures Concat(a + b) == Concat(a) + Concat(b)
  {
    if a == [] {
      assert a + b == b;
    } else {
      assert (a + b)[1..] == a[1..] + b;
      ConcatAppend(a[1..], b);
      Associate(a[0], Concat(a[1..]), Concat(b));
    }
  }
}
