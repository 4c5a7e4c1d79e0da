/**
  The reversed-byte trie of match.go. A node stands for a suffix of some inserted
  base; its child under `ch` stands for that suffix with `ch` put in front.
 */
module SuffixTries {
  import opened Text

  /** The domain itself and every subdomain of it. */
  predicate Covers(base: string, n: string) {
    base != "" && (n == base || HasSuffix(n, "." + base))
  }

  ghost predicate CoveredBy(bases: set<string>, n: string) {
    exists b :: b in bases && Covers(b, n)
  }

  /** The suffix of n from i starts a label: the boundary check of the trie. */
  predicate AtLabel(n: string, i: nat)
    requires i <= |n|
  {
    i == 0 || n[i - 1] == '.'
  }

  lemma CoversIsLabelSuffix(base: string, n: string)
    ensures Covers(base, n) <==> base != "" && |base| <= |n| && n[|n| - |base|..] == base && AtLabel(n, |n| - |base|)
  {
    if |base| < |n| {
      var i := |n| - |base|;
      assert n[i - 1..] == [n[i - 1]] + n[i..];
      assert ("." + base)[1..] == base;
    }
  }

  lemma CoversIsTransitive(a: string, b: string, n: string)
    requires Covers(a, b) && Covers(b, n)
    ensures Covers(a, n)
  {
    CoversIsLabelSuffix(a, b);
    CoversIsLabelSuffix(b, n);
    CoversIsLabelSuffix(a, n);
    assert n[|n| - |a|..] == b[|b| - |a|..];
    if |b| > |a| {
      assert b[|b| - |a| - 1] == n[|n| - |b|..][|b| - |a| - 1];
    }
  }

  class TrieNode {
    var children: map<char, TrieNode>
    var isEnd: bool
    /** The suffix this node stands for. */
    ghost const suffix: string

    constructor (ghost suffix: string)
      ensures children == map[] && !isEnd && this.suffix == suffix
    {
      children, isEnd, this.suffix := map[], false, suffix;
    }
  }

  /** The node of a non-empty suffix hangs under the node of the suffix without its first byte. */
  ghost predicate HasParent(nodes: map<string, TrieNode>, kids: map<string, map<char, TrieNode>>, s: string) {
    s in nodes && s != "" ==>
      s[1..] in nodes && s[1..] in kids && s[0] in kids[s[1..]] && kids[s[1..]][s[0]] == nodes[s]
  }

  ghost predicate ChildIsKnown(nodes: map<string, TrieNode>, kids: map<string, map<char, TrieNode>>, s: string, ch: char) {
    s in kids && ch in kids[s] ==> [ch] + s in nodes
  }

  /** `nodes` names every node by its suffix, `kids` gives the edges, and the two agree. */
  ghost predicate Linked(nodes: map<string, TrieNode>, kids: map<string, map<char, TrieNode>>) {
    && nodes.Keys == kids.Keys
    && (forall s {:trigger HasParent(nodes, kids, s)} :: HasParent(nodes, kids, s))
    && (forall s, ch {:trigger ChildIsKnown(nodes, kids, s, ch)} :: ChildIsKnown(nodes, kids, s, ch))
  }

  lemma ChildIsNew(nodes: map<string, TrieNode>, kids: map<string, map<char, TrieNode>>, ch: char, suffix: string)
    requires Linked(nodes, kids) && suffix in nodes && ch !in kids[suffix]
    ensures ([ch] + suffix)[1..] == suffix && [ch] + suffix !in nodes
  {
    assert ([ch] + suffix)[0] == ch && ([ch] + suffix)[1..] == suffix;
    assert HasParent(nodes, kids, [ch] + suffix);
  }

  lemma GrownIsLinked(nodes: map<string, TrieNode>, kids: map<string, map<char, TrieNode>>, ch: char, suffix: string, next: TrieNode)
    requires Linked(nodes, kids) && suffix in nodes && ch !in kids[suffix]
    ensures Linked(nodes[[ch] + suffix := next], kids[suffix := kids[suffix][ch := next]][[ch] + suffix := map[]])
  {
    ChildIsNew(nodes, kids, ch, suffix);
    var grown := [ch] + suffix;
    var nodes', kids' := nodes[grown := next], kids[suffix := kids[suffix][ch := next]][grown := map[]];
    assert nodes'.Keys == kids'.Keys;
    forall s {:trigger HasParent(nodes', kids', s)}
      ensures HasParent(nodes', kids', s)
    {
      assert HasParent(nodes, kids, s);
    }
    forall s, c {:trigger ChildIsKnown(nodes', kids', s, c)}
      ensures ChildIsKnown(nodes', kids', s, c)
    {
      assert ChildIsKnown(nodes, kids, s, c);
    }
  }

  class SuffixTrie {
    const root: TrieNode
    /** Every node by the suffix it stands for, and its children. */
    ghost var nodes: map<string, TrieNode>
    ghost var kids: map<string, map<char, TrieNode>>
    /** The inserted bases. */
    ghost var bases: set<string>

    ghost predicate Valid()
      reads this, nodes.Values
    {
      && "" in nodes && nodes[""] == root && "" !in bases && bases <= nodes.Keys
      && Linked(nodes, kids)
      && (forall s :: s in nodes ==> nodes[s].suffix == s && nodes[s].children == kids[s] && (nodes[s].isEnd <==> s in bases))
    }

    constructor ()
      ensures Valid() && bases == {} && fresh(nodes.Values)
    {
      root := new TrieNode("");
      new;
      nodes, kids, bases := map["" := root], map["" := map[]], {};
      assert nodes[""] in nodes.Values;
      assert nodes.Values == {root};
    }

    /** Make room for one more node under `suffix`. */
    method AddChild(cur: TrieNode, ch: char, ghost suffix: string) returns (next: TrieNode)
      requires Valid() && suffix in nodes && nodes[suffix] == cur && ch !in cur.children
      modifies this`nodes, this`kids, cur`children
      ensures Valid() && fresh(next)
      ensures nodes == old(nodes)[[ch] + suffix := next]
    {
      ghost var was, grown := nodes, [ch] + suffix;
      ChildIsNew(nodes, kids, ch, suffix);
      next := new TrieNode(grown);
      GrownIsLinked(nodes, kids, ch, suffix, next);
      cur.children := cur.children[ch := next];
      nodes, kids := was[grown := next], kids[suffix := cur.children][grown := map[]];
    }

    /** The child of `cur` under `ch`, made when there is none. */
    method Descend(cur: TrieNode, ch: char, ghost suffix: string) returns (next: TrieNode)
      requires Valid() && suffix in nodes && nodes[suffix] == cur
      modifies this`nodes, this`kids, nodes.Values
      ensures Valid() && fresh(nodes.Values - old(nodes.Values))
      ensures [ch] + suffix in nodes && nodes[[ch] + suffix] == next
    {
      if ch in cur.children {
        assert ([ch] + suffix)[1..] == suffix;
        assert ChildIsKnown(nodes, kids, suffix, ch);
        assert HasParent(nodes, kids, [ch] + suffix);
        next := cur.children[ch];
      } else {
        next := AddChild(cur, ch, suffix);
        assert nodes.Values <= old(nodes.Values) + {next};
      }
    }

    lemma RootIsKnown()
      requires Valid()
      ensures "" in nodes && nodes[""] == root
    {
    }

    method MarkEnd(cur: TrieNode, ghost base: string)
      requires Valid() && base != "" && base in nodes && nodes[base] == cur
      modifies this`bases, cur`isEnd
      ensures Valid() && bases == old(bases) + {base}
    {
      cur.isEnd := true;
      bases := bases + {base};
    }

    method AddBase(base: string)
      requires Valid()
      modifies this`nodes, this`kids, this`bases, nodes.Values
      ensures Valid() && fresh(nodes.Values - old(nodes.Values))
      ensures bases == old(bases) + (if base == "" then {} else {base})
    {
      if base == "" {
        return;
      }
      hide SuffixTrie.Valid;
      RootIsKnown();
      var cur := root;
      var i := |base|;
      assert base[i..] == "";
      while i > 0
        invariant 0 <= i <= |base|
        invariant Valid() && bases == old(bases)
        invariant fresh(nodes.Values - old(nodes.Values))
        invariant base[i..] in nodes && nodes[base[i..]] == cur
      {
        i := i - 1;
        assert base[i..] == [base[i]] + base[i + 1..];
        cur := Descend(cur, base[i], base[i + 1..]);
      }
      assert base[0..] == base;
      MarkEnd(cur, base);
    }

    lemma LongerSuffixesAbsent(name: string, i: nat, j: nat)
      requires Valid() && j <= i <= |name| && name[i..] !in nodes
      ensures name[j..] !in nodes
      decreases i - j
    {
      if j < i {
        LongerSuffixesAbsent(name, i, j + 1);
        assert name[j..][1..] == name[j + 1..];
        assert HasParent(nodes, kids, name[j..]);
      }
    }

    /** A base of the trie covers the name exactly when one of the name's label suffixes was inserted. */
    lemma CoveredMeansSuffix(name: string)
      requires Valid()
      ensures CoveredBy(bases, name) <==> exists i :: 0 <= i < |name| && name[i..] in bases && AtLabel(name, i)
    {
      if CoveredBy(bases, name) {
        var b :| b in bases && Covers(b, name);
        CoversIsLabelSuffix(b, name);
        assert name[|name| - |b|..] in bases;
      }
      forall i | 0 <= i < |name| && name[i..] in bases && AtLabel(name, i)
        ensures Covers(name[i..], name)
      {
        CoversIsLabelSuffix(name[i..], name);
      }
    }

    method Match(name: string) returns (found: bool)
      requires Valid()
      ensures found <==> CoveredBy(bases, name)
    {
      CoveredMeansSuffix(name);
      if name == "" {
        return false;
      }
      var cur := root;
      var i := |name|;
      assert name[i..] == "";
      while i > 0
        invariant 0 <= i <= |name|
        invariant name[i..] in nodes && nodes[name[i..]] == cur
        invariant forall j :: i <= j < |name| ==> !(name[j..] in bases && AtLabel(name, j))
      {
        i := i - 1;
        assert name[i..] == [name[i]] + name[i + 1..];
        assert name[i..][1..] == name[i + 1..];
        assert HasParent(nodes, kids, name[i..]);
        if name[i] !in cur.children {
          forall j | 0 <= j <= i
            ensures name[j..] !in nodes
          {
            LongerSuffixesAbsent(name, i, j);
          }
          return false;
        }
        assert ChildIsKnown(nodes, kids, name[i + 1..], name[i]);
        cur := cur.children[name[i]];
        if cur.isEnd && (i == 0 || name[i - 1] == '.') {
          assert name[i..] in bases && AtLabel(name, i);
          return true;
        }
      }
      return false;
    }
  }
}
