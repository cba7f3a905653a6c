/** Domain names as strings and as label sequences, and the naive blocking rule. */
module Labels {
  import opened Text

  /** A list entry as it is stored: trimmed and in lower case. */
  function Normal(line: string): string {
    Lower(TrimRight(TrimLeft(line)))
  }

  /** What is stored is the line without the blanks around it, letter by letter in lower case. */
  lemma NormalIff(line: string, e: string)
    ensures Normal(line) == e <==>
      exists pre, core, post :: line == pre + core + post && Blank(pre) && Blank(post) && Solid(core) && Lower(core) == e
  {
    TrimIff(line, TrimRight(TrimLeft(line)));
    forall pre, core, post | line == pre + core + post && Blank(pre) && Blank(post) && Solid(core)
      ensures Normal(line) == Lower(core)
    {
      TrimExact(pre, core, post);
    }
  }

  const WILDCARD := "*."

  /** The rule a list entry stands for: "*.base" blocks every host that ends in ".base", any other
      entry blocks the host of that name, an empty entry blocks nothing. */
  predicate EntryBlocks(e: string, host: string) {
    if e == "" then false
    else if HasPrefix(e, WILDCARD) then EndsWith(host, "." + e[2..])
    else host == e
  }

  predicate NaiveBlocked(domains: seq<string>, host: string) {
    exists i :: 0 <= i < |domains| && EntryBlocks(Normal(domains[i]), host)
  }

  // Labels

  /** strings.Split(s, "."): one more piece than there are dots. */
  function Split(s: string): (labels: seq<string>)
    ensures labels != []
  {
    if s == "" then [""]
    else if s[0] == '.' then [""] + Split(s[1..])
    else var rest := Split(s[1..]); [[s[0]] + rest[0]] + rest[1..]
  }

  function Join(labels: seq<string>): string
    requires labels != []
  {
    if |labels| == 1 then labels[0] else labels[0] + "." + Join(labels[1..])
  }

  lemma JoinFirst(first: string, rest: seq<string>)
    requires rest != []
    ensures Join([first] + rest) == first + "." + Join(rest)
  {
    assert ([first] + rest)[1..] == rest;
  }

  lemma JoinLonger(c: char, labels: seq<string>)
    requires labels != []
    ensures Join([[c] + labels[0]] + labels[1..]) == [c] + Join(labels)
  {
    assert ([[c] + labels[0]] + labels[1..])[1..] == labels[1..];
    if |labels| > 1 {
      assert ([c] + labels[0]) + "." + Join(labels[1..]) == [c] + (labels[0] + "." + Join(labels[1..]));
    }
  }

  lemma {:induction false} JoinSplit(s: string)
    ensures Join(Split(s)) == s
  {
    if s != "" {
      JoinSplit(s[1..]);
      if s[0] == '.' {
        JoinFirst("", Split(s[1..]));
        assert s == "" + "." + s[1..];
      } else {
        JoinLonger(s[0], Split(s[1..]));
        assert s == [s[0]] + s[1..];
      }
    }
  }

  lemma LongerThenMore(c: char, a: seq<string>, b: seq<string>)
    requires a != []
    ensures [[c] + (a + b)[0]] + (a + b)[1..] == ([[c] + a[0]] + a[1..]) + b
  {
    assert (a + b)[1..] == a[1..] + b;
  }

  lemma {:induction false} SplitConcat(x: string, y: string)
    ensures Split(x + "." + y) == Split(x) + Split(y)
  {
    var whole := x + "." + y;
    if x == "" {
      assert whole[1..] == y;
    } else {
      assert whole[1..] == x[1..] + "." + y && whole[0] == x[0];
      SplitConcat(x[1..], y);
      if x[0] == '.' {
        Associate([""], Split(x[1..]), Split(y));
      } else {
        LongerThenMore(x[0], Split(x[1..]), Split(y));
      }
    }
  }

  lemma {:induction false} JoinConcat(a: seq<string>, b: seq<string>)
    requires a != [] && b != []
    ensures Join(a + b) == Join(a) + "." + Join(b)
  {
    assert (a + b)[1..] == a[1..] + b;
    if |a| > 1 {
      JoinConcat(a[1..], b);
    } else {
      assert a[1..] + b == b;
    }
  }

  /** base's labels are the last labels of host, and host has at least one more. */
  predicate ProperLabelSuffix(host: string, base: string) {
    |Split(base)| < |Split(host)| && Split(host)[|Split(host)| - |Split(base)|..] == Split(base)
  }

  /** Matching labels from the right is the plain string test. */
  lemma LabelSuffixIsStringSuffix(host: string, base: string)
    ensures ProperLabelSuffix(host, base) <==> EndsWith(host, "." + base)
  {
    var labels, tail := Split(host), Split(base);
    if ProperLabelSuffix(host, base) {
      var front := labels[..|labels| - |tail|];
      assert labels == front + tail;
      JoinConcat(front, tail);
      JoinSplit(host);
      JoinSplit(base);
      assert host == Join(front) + ("." + base);
    }
    if EndsWith(host, "." + base) {
      var front := host[..|host| - |base| - 1];
      assert host == front + "." + base;
      SplitConcat(front, base);
    }
  }

  /** Split determines its argument. */
  lemma SplitInjective(x: string, y: string)
    requires Split(x) == Split(y)
    ensures x == y
  {
    JoinSplit(x);
    JoinSplit(y);
  }

  // Consequences of the rule

  /** Adding entries never unblocks a host, and the order and repetition of entries do not matter. */
  lemma NaiveMonotone(a: seq<string>, b: seq<string>, host: string)
    requires forall d :: d in a ==> d in b
    ensures NaiveBlocked(a, host) ==> NaiveBlocked(b, host)
  {
    if NaiveBlocked(a, host) {
      var i :| 0 <= i < |a| && EntryBlocks(Normal(a[i]), host);
      assert a[i] in b;
    }
  }
}
