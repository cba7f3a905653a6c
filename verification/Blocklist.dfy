/** The domain blocklist: a set of exact names and a trie of reversed labels for the wildcards. */
module BlocklistTrie {
  import opened Verdicts
  import opened Labels
  import opened Text
  import opened HostPort

  const SENTINEL := "*"

  /** A walk down the trie, from the root. */
  datatype Path = Root | Child(parent: Path, name: string)

  class TrieNode {
    var children: map<string, TrieNode>
    var terminal: bool
    ghost const path: Path  // the one walk that leads here

    constructor (ghost path: Path)
      ensures children == map[] && !terminal && this.path == path
    {
      children := map[];
      terminal := false;
      this.path := path;
    }
  }

  /** The walk that takes labels from the right: for example.com it is com, then example. */
  function PathOf(labels: seq<string>): Path {
    if labels == [] then Root else Child(PathOf(labels[1..]), labels[0])
  }

  lemma PathStep(labels: seq<string>, i: nat)
    requires i < |labels|
    ensures PathOf(labels[i..]) == Child(PathOf(labels[i + 1..]), labels[i])
  {
    assert labels[i..][1..] == labels[i + 1..];
  }

  lemma {:induction false} PathOfInjective(a: seq<string>, b: seq<string>)
    requires PathOf(a) == PathOf(b)
    ensures a == b
  {
    if a != [] {
      PathOfInjective(a[1..], b[1..]);
    }
  }

  /** Where the wildcard for base ends: "*.example.com" is com, example, then the sentinel. */
  function WildcardPath(base: string): Path {
    Child(PathOf(Split(base)), SENTINEL)
  }

  predicate IsWildcard(e: string) {
    HasPrefix(e, WILDCARD)
  }

  /** The entry e, already normalised, is the exact name h. */
  predicate NamesHost(e: string, h: string) {
    e != "" && !IsWildcard(e) && e == h
  }

  /** The entry e, already normalised, is the wildcard that ends at path p. */
  predicate EndsAt(e: string, p: Path) {
    IsWildcard(e) && WildcardPath(e[2..]) == p
  }

  /** The exact names and the terminal paths are those of the entries ds, and no others. */
  ghost predicate Holds(exact: set<string>, terminals: set<Path>, ds: seq<string>) {
    && (forall h :: h in exact <==> exists i :: 0 <= i < |ds| && NamesHost(Normal(ds[i]), h))
    && (forall p :: p in terminals <==> exists i :: 0 <= i < |ds| && EndsAt(Normal(ds[i]), p))
  }

  lemma HoldsMore(exact: set<string>, terminals: set<Path>, ds: seq<string>, line: string,
                  exact': set<string>, terminals': set<Path>)
    requires Holds(exact, terminals, ds)
    requires var e := Normal(line);
      if e == "" then exact' == exact && terminals' == terminals
      else if IsWildcard(e) then exact' == exact && terminals' == terminals + {WildcardPath(e[2..])}
      else exact' == exact + {e} && terminals' == terminals
    ensures Holds(exact', terminals', ds + [line])
  {
    var more := ds + [line];
    assert more[|ds|] == line;
    assert forall i :: 0 <= i < |ds| ==> more[i] == ds[i];
    forall h ensures h in exact' <==> exists i :: 0 <= i < |more| && NamesHost(Normal(more[i]), h) {
      if h in exact {
        var i :| 0 <= i < |ds| && NamesHost(Normal(ds[i]), h);
        assert NamesHost(Normal(more[i]), h);
      } else if h in exact' {
        assert NamesHost(Normal(more[|ds|]), h);
      }
    }
    forall p ensures p in terminals' <==> exists i :: 0 <= i < |more| && EndsAt(Normal(more[i]), p) {
      if p in terminals {
        var i :| 0 <= i < |ds| && EndsAt(Normal(ds[i]), p);
        assert EndsAt(Normal(more[i]), p);
      } else if p in terminals' {
        assert EndsAt(Normal(more[|ds|]), p);
      }
    }
  }

  /** Some wildcard ends right below a proper suffix of the labels. */
  ghost predicate SomeWildcard(terminals: set<Path>, labels: seq<string>) {
    exists k :: 0 < k < |labels| && Child(PathOf(labels[k..]), SENTINEL) in terminals
  }

  lemma WildcardMatches(base: string, host: string, k: nat)
    requires 0 < k < |Split(host)| && Child(PathOf(Split(host)[k..]), SENTINEL) == WildcardPath(base)
    ensures EndsWith(host, "." + base)
  {
    PathOfInjective(Split(host)[k..], Split(base));
    LabelSuffixIsStringSuffix(host, base);
  }

  /** What the trie answers is the naive rule over the entries, whatever their order or repetition. */
  lemma TrieRefinesRule(exact: set<string>, terminals: set<Path>, ds: seq<string>, host: string)
    requires Holds(exact, terminals, ds)
    ensures (host in exact || SomeWildcard(terminals, Split(host))) <==> NaiveBlocked(ds, host)
  {
    var labels := Split(host);
    if host in exact {
      var i :| 0 <= i < |ds| && NamesHost(Normal(ds[i]), host);
      assert EntryBlocks(Normal(ds[i]), host);
    }
    if SomeWildcard(terminals, labels) {
      var k :| 0 < k < |labels| && Child(PathOf(labels[k..]), SENTINEL) in terminals;
      var i :| 0 <= i < |ds| && EndsAt(Normal(ds[i]), Child(PathOf(labels[k..]), SENTINEL));
      WildcardMatches(Normal(ds[i])[2..], host, k);
      assert EntryBlocks(Normal(ds[i]), host);
    }
    if NaiveBlocked(ds, host) {
      var i :| 0 <= i < |ds| && EntryBlocks(Normal(ds[i]), host);
      var e := Normal(ds[i]);
      if IsWildcard(e) {
        var base := e[2..];
        LabelSuffixIsStringSuffix(host, base);
        var k := |labels| - |Split(base)|;
        assert EndsAt(e, WildcardPath(base)) && Child(PathOf(labels[k..]), SENTINEL) == WildcardPath(base);
      } else {
        assert NamesHost(e, host);
      }
    }
  }

  lemma OneMore(base: seq<string>, ds: seq<string>, i: nat)
    requires i < |ds|
    ensures base + ds[..i] + [ds[i]] == base + ds[..i + 1]
  {
    assert ds[..i] + [ds[i]] == ds[..i + 1];
    Associate(base, ds[..i], [ds[i]]);
  }

  class Blocklist {
    var exact: set<string>
    var trie: TrieNode
    ghost var domains: seq<string>              // the entries added so far
    ghost var nodes: map<Path, TrieNode> // every node of the trie, by its path from the root
    ghost var terminals: set<Path>       // the paths of the terminal nodes
    ghost var repr: set<TrieNode>

    /** The nodes form a tree: each is reached by exactly the path it is filed under. */
    ghost predicate Tree()
      reads this, repr
    {
      && Root in nodes && nodes[Root] == trie
      && (forall p :: p in nodes ==> nodes[p] in repr)
      && (forall p :: p in nodes ==> nodes[p].path == p)
      && (forall p, l :: p in nodes && l in nodes[p].children ==>
            Child(p, l) in nodes && nodes[p].children[l] == nodes[Child(p, l)])
      && (forall p, l :: Child(p, l) in nodes ==> p in nodes && l in nodes[p].children)
      && (forall p :: p in nodes ==> (p in terminals <==> nodes[p].terminal))
      && (forall p :: p in terminals ==> p in nodes)
    }

    ghost predicate Valid()
      reads this, repr
    {
      Tree() && Holds(exact, terminals, domains)
    }

    constructor (ds: seq<string>)
      ensures Valid() && domains == ds
      ensures fresh(repr)
    {
      exact := {};
      var root := new TrieNode(Root);
      trie := root;
      domains := [];
      nodes := map[Root := root];
      terminals := {};
      repr := {root};
      new;
      AddAll(ds);
    }

    /** Adds the entries one after the other. */
    method AddAll(ds: seq<string>)
      requires Valid()
      modifies this, repr
      ensures Valid() && domains == old(domains) + ds
      ensures repr >= old(repr) && fresh(repr - old(repr))
    {
      for i := 0 to |ds|
        invariant Valid() && domains == old(domains) + ds[..i]
        invariant repr >= old(repr) && fresh(repr - old(repr))
      {
        AddEntry(ds[i]);
        OneMore(old(domains), ds, i);
      }
      assert ds[..|ds|] == ds;
    }

    /** Hangs a fresh node below n. */
    method Attach(n: TrieNode, name: string, child: TrieNode)
      requires Tree() && n.path in nodes && nodes[n.path] == n && name !in n.children
      requires child !in repr && child.path == Child(n.path, name) && child.children == map[] && !child.terminal
      modifies this`nodes, this`repr, n`children
      ensures Tree() && nodes == old(nodes)[child.path := child] && repr == old(repr) + {child}
    {
      ghost var before := nodes;
      assert child.path !in before;
      n.children := n.children[name := child];
      nodes := nodes[child.path := child];
      repr := repr + {child};
      forall p | p in before ensures nodes[p] == before[p] && (p != n.path ==> nodes[p].children == old(before[p].children)) {
        assert p != n.path ==> before[p] != n;
      }
      assert nodes[n.path].children == old(n.children)[name := child];
      forall p | p in nodes ensures nodes[p] in repr && nodes[p].path == p && (p in terminals <==> nodes[p].terminal) {
        assert p in before || p == child.path;
      }
      forall p, l | p in nodes && l in nodes[p].children
        ensures Child(p, l) in nodes && nodes[p].children[l] == nodes[Child(p, l)]
      {
        assert p in before;
        if p == n.path && l == name {
          assert nodes[p].children[l] == child;
        } else {
          assert l in old(before[p].children) && nodes[p].children[l] == old(before[p].children[l]);
        }
      }
      forall p, l | Child(p, l) in nodes ensures p in nodes && l in nodes[p].children {
        assert Child(p, l) in before || (p == n.path && l == name);
      }
    }

    /** The child of n under name, made if it was missing; no other node and no terminal changes. */
    method GetOrCreate(n: TrieNode, name: string) returns (child: TrieNode)
      requires Tree() && n.path in nodes && nodes[n.path] == n
      modifies this`nodes, this`repr, n`children
      ensures Tree() && child.path == Child(n.path, name) && child.path in nodes && nodes[child.path] == child
      ensures repr >= old(repr) && fresh(repr - old(repr))
      ensures nodes.Keys == old(nodes).Keys + {child.path}
    {
      if name in n.children {
        child := n.children[name];
      } else {
        child := new TrieNode(Child(n.path, name));
        Attach(n, name, child);
      }
    }

    method MarkTerminal(n: TrieNode)
      requires Tree() && n.path in nodes && nodes[n.path] == n
      modifies this`terminals, n`terminal
      ensures Tree() && terminals == old(terminals) + {n.path}
    {
      n.terminal := true;
      terminals := terminals + {n.path};
    }

    method AddEntry(line: string)
      requires Valid()
      modifies this, repr
      ensures Valid() && domains == old(domains) + [line]
      ensures repr >= old(repr) && fresh(repr - old(repr))
    {
      var e := Normal(line);
      if e != "" {
        if IsWildcard(e) {
          AddWildcard(e[2..]);
        } else {
          exact := exact + {e};
        }
      }
      HoldsMore(old(exact), old(terminals), domains, line, exact, terminals);
      domains := domains + [line];
    }

    /** Walks down by the labels from the right, making what is missing. */
    method Walk(labels: seq<string>) returns (node: TrieNode)
      requires Tree()
      modifies this`nodes, this`repr, repr
      ensures Tree() && terminals == old(terminals)
      ensures node.path == PathOf(labels) && node.path in nodes && nodes[node.path] == node
      ensures repr >= old(repr) && fresh(repr - old(repr))
    {
      node := trie;
      var i := |labels|;
      while i > 0
        invariant 0 <= i <= |labels|
        invariant Tree() && terminals == old(terminals)
        invariant node.path == PathOf(labels[i..]) && node.path in nodes && nodes[node.path] == node
        invariant repr >= old(repr) && fresh(repr - old(repr))
      {
        node := GetOrCreate(node, labels[i - 1]);
        i := i - 1;
        PathStep(labels, i);
      }
      assert labels[0..] == labels;
    }

    /** Marks the sentinel below n. */
    method MarkWildcard(n: TrieNode)
      requires Tree() && n.path in nodes && nodes[n.path] == n
      modifies this`nodes, this`repr, this`terminals, repr
      ensures Tree() && terminals == old(terminals) + {Child(n.path, SENTINEL)}
      ensures repr >= old(repr) && fresh(repr - old(repr))
    {
      var wildcard := GetOrCreate(n, SENTINEL);
      MarkTerminal(wildcard);
    }

    /** What addEntry does for a wildcard: the labels of base from the right, then the sentinel. */
    method AddWildcard(base: string)
      requires Tree()
      modifies this`nodes, this`repr, this`terminals, repr
      ensures Tree() && terminals == old(terminals) + {WildcardPath(base)}
      ensures repr >= old(repr) && fresh(repr - old(repr))
    {
      var node := Walk(Split(base));
      MarkWildcard(node);
    }

    /** No wildcard ends right below the last |labels| - i labels, or fewer. */
    ghost predicate NoneFrom(labels: seq<string>, i: nat)
      reads this
    {
      forall k :: i <= k < |labels| && 0 < k ==> Child(PathOf(labels[k..]), SENTINEL) !in terminals
    }

    /** A node's ancestors are nodes. */
    lemma {:induction false} AncestorsPresent(labels: seq<string>, k: nat, i: nat)
      requires Tree() && k <= i < |labels|
      ensures PathOf(labels[k..]) in nodes ==> PathOf(labels[i..]) in nodes
      decreases i - k
    {
      if k < i {
        PathStep(labels, k);
        AncestorsPresent(labels, k + 1, i);
      }
    }

    /** Where the walk ends, nothing longer matches. */
    lemma DeadEnd(labels: seq<string>, i: nat)
      requires Tree() && i < |labels| && PathOf(labels[i..]) !in nodes && NoneFrom(labels, i + 1)
      ensures !SomeWildcard(terminals, labels)
    {
      forall k | 0 < k < |labels| ensures Child(PathOf(labels[k..]), SENTINEL) !in terminals {
        if k <= i {
          AncestorsPresent(labels, k, i);
        }
      }
    }

    /** The sentinel below a node decides whether a wildcard ends there. */
    lemma SentinelDecides(node: TrieNode)
      requires Tree() && node.path in nodes && nodes[node.path] == node
      ensures Child(node.path, SENTINEL) in terminals <==>
        SENTINEL in node.children && node.children[SENTINEL].terminal
    {
      if SENTINEL !in node.children {
        assert Child(node.path, SENTINEL) !in nodes;
      }
    }

    /** Walks the trie with the labels of h from the right. */
    method WildcardBlocked(h: string) returns (blocked: bool)
      requires Tree()
      ensures blocked <==> SomeWildcard(terminals, Split(h))
    {
      var labels := Split(h);
      var node := trie;
      var i := |labels|;
      while i > 0
        invariant 0 <= i <= |labels|
        invariant node.path == PathOf(labels[i..]) && node.path in nodes && nodes[node.path] == node
        invariant NoneFrom(labels, i)
      {
        i := i - 1;
        PathStep(labels, i);
        if labels[i] !in node.children {
          DeadEnd(labels, i);
          return false;
        }
        node := node.children[labels[i]];
        SentinelDecides(node);
        if SENTINEL in node.children && node.children[SENTINEL].terminal && i > 0 {
          return true;
        }
      }
      return false;
    }

    /** A host, less its port if it has one, is blocked exactly when the naive rule over the entries blocks
        it; a nil list blocks nothing. */
    static method IsBlocked(bl: Blocklist?, host: string) returns (blocked: bool)
      requires bl != null ==> bl.Valid()
      ensures bl == null ==> !blocked
      ensures bl != null ==> forall h, port :: HasPort(Lower(host), h, port) ==> (blocked <==> NaiveBlocked(bl.domains, h))
      ensures bl != null && (forall h, port :: !HasPort(Lower(host), h, port)) ==>
        (blocked <==> NaiveBlocked(bl.domains, Lower(host)))
    {
      if bl == null {
        return false;
      }
      var h := Lower(host);
      var stripped := SplitHostPort(h);
      NoPortIff(h);
      forall name, port | HasPort(h, name, port) ensures stripped == Some(name) {
        SplitIffHasPort(h, name);
      }
      if stripped.Some? {
        h := stripped.value;
      }
      TrieRefinesRule(bl.exact, bl.terminals, bl.domains, h);
      if h in bl.exact {
        return true;
      }
      blocked := bl.WildcardBlocked(h);
    }
  }
}
