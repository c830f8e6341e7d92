/**
 * The suggestion trie, as a heap of mutable nodes, against a plain map from lower-cased term to
 * the data last inserted for it.
 */
module SearchTrie {
  import opened Basics
  import opened Ranking

  type Entries = map<string, TermData>

  // --- The specification ------------------------------------------------------------------------

  /** The entries whose key starts with `p`. */
  function Matching(m: Entries, p: string): set<TermData> {
    set k | k in m && p <= k :: m[k]
  }

  /** Keys are lower-cased terms, so distinct entries have distinct terms. */
  predicate KeyedBy(m: Entries, lower: string -> string) {
    forall k :: k in m ==> lower(m[k].term) == k
  }

  ghost predicate Lists(s: seq<TermData>, members: set<TermData>) {
    DistinctTerms(s) && forall x :: x in s <==> x in members
  }

  lemma {:induction false} SomeListing(members: set<TermData>)
    requires forall x, y :: x in members && y in members && x != y ==> x.term != y.term
    ensures exists s: seq<TermData> :: Lists(s, members)
  {
    if members == {} {
      assert Lists([], members);
    } else {
      var x :| x in members;
      SomeListing(members - {x});
      var s: seq<TermData> :| Lists(s, members - {x});
      assert Lists([x] + s, members);
    }
  }

  /** The answer to a prefix query: filter, sort, take. */
  ghost function Answer(m: Entries, lower: string -> string, prefix: string, limit: int): seq<TermData>
    requires KeyedBy(m, lower)
  {
    if prefix == "" then []
    else
      SomeListing(Matching(m, lower(prefix)));
      var s: seq<TermData> :| Lists(s, Matching(m, lower(prefix)));
      Take(Sorted(s), limit)
  }

  /** Any listing of the matching entries gives the answer: neither the order of insertion nor the
      order of the children matters. */
  lemma AnswerFromListing(m: Entries, lower: string -> string, prefix: string, limit: int, s: seq<TermData>)
    requires KeyedBy(m, lower) && prefix != "" && Lists(s, Matching(m, lower(prefix)))
    ensures Answer(m, lower, prefix, limit) == Take(Sorted(s), limit)
  {
    var t: seq<TermData> :| Lists(t, Matching(m, lower(prefix)))
        && Answer(m, lower, prefix, limit) == Take(Sorted(t), limit);
    SortedForgetsOrder(s, t);
  }

  /** The matching entries at `p` itself or below one of the characters of `done`. */
  function Partial(m: Entries, p: string, done: set<char>): set<TermData> {
    set k | k in m && p <= k && (k == p || k[|p|] in done) :: m[k]
  }

  lemma PartialGrows(m: Entries, p: string, done: set<char>, c: char)
    ensures Partial(m, p, done + {c}) == Partial(m, p, done) + Matching(m, p + [c])
  {
    assert forall k: string :: p + [c] <= k <==> p <= k && k != p && k[|p|] == c;
    forall x | x in Partial(m, p, done + {c}) ensures x in Partial(m, p, done) + Matching(m, p + [c]) {
      var k :| k in m && p <= k && (k == p || k[|p|] in done + {c}) && m[k] == x;
    }
    forall x | x in Matching(m, p + [c]) ensures x in Partial(m, p, done + {c}) {
      var k :| k in m && p + [c] <= k && m[k] == x;
      assert p <= k && k[|p|] in done + {c};
    }
  }

  lemma PartialDisjoint(m: Entries, lower: string -> string, p: string, done: set<char>, c: char, x: TermData,
      y: TermData)
    requires KeyedBy(m, lower) && c !in done && x in Partial(m, p, done) && y in Matching(m, p + [c])
    ensures x.term != y.term
  {
    var k :| k in m && p <= k && (k == p || k[|p|] in done) && m[k] == x;
    var l :| l in m && p + [c] <= l && m[l] == y;
    assert l[|p|] == c;
  }

  lemma ListsJoin(s: seq<TermData>, a: set<TermData>, t: seq<TermData>, b: set<TermData>)
    requires Lists(s, a) && Lists(t, b) && forall x, y :: x in a && y in b ==> x.term != y.term
    ensures Lists(s + t, a + b)
  {
  }

  lemma ListsMore(m: Entries, lower: string -> string, p: string, done: set<char>, c: char, s: seq<TermData>,
      t: seq<TermData>)
    requires KeyedBy(m, lower) && c !in done && Lists(s, Partial(m, p, done)) && Lists(t, Matching(m, p + [c]))
    ensures Lists(s + t, Partial(m, p, done + {c}))
  {
    forall x, y | x in Partial(m, p, done) && y in Matching(m, p + [c]) ensures x.term != y.term {
      PartialDisjoint(m, lower, p, done, c, x, y);
    }
    ListsJoin(s, Partial(m, p, done), t, Matching(m, p + [c]));
    PartialGrows(m, p, done, c);
  }

  lemma TakeMeaning(full: seq<TermData>, limit: int)
    requires InOrder(full)
    ensures var r := Take(full, limit);
      && InOrder(r) && (forall x :: x in r ==> x in full)
      && forall x, y :: x in r && y in full && y !in r ==> Before(x, y)
  {
    var r := Take(full, limit);
    forall j | 0 <= j < |r| ensures full[j] in r { assert r[j] == full[j]; }
    forall x, y | x in r && y in full && y !in r ensures Before(x, y) {
      var i :| 0 <= i < |r| && r[i] == x;
      var j :| 0 <= j < |full| && full[j] == y;
    }
  }

  /** What an answer is: matching entries in order, and every matching entry that is left out comes
      after all those listed. */
  lemma AnswerMeaning(m: Entries, lower: string -> string, prefix: string, limit: int)
    requires KeyedBy(m, lower) && prefix != ""
    ensures var r := Answer(m, lower, prefix, limit);
      && InOrder(r)
      && (forall x :: x in r ==> x in Matching(m, lower(prefix)))
      && (forall x, y :: x in r && y in Matching(m, lower(prefix)) && y !in r ==> Before(x, y))
      && (limit >= 0 ==> |r| == if limit < |Matching(m, lower(prefix))| then limit else |Matching(m, lower(prefix))|)
  {
    var members := Matching(m, lower(prefix));
    SomeListing(members);
    var s: seq<TermData> :| Lists(s, members);
    AnswerFromListing(m, lower, prefix, limit, s);
    SortedInOrder(s);
    TakeMeaning(Sorted(s), limit);
    ListingSize(Sorted(s), members);
  }

  /** The most popular come first, and among equally popular ones the lowest term. */
  lemma AnswerOrder(m: Entries, lower: string -> string, prefix: string, limit: int, i: nat, j: nat)
    requires KeyedBy(m, lower) && prefix != "" && i < j < |Answer(m, lower, prefix, limit)|
    ensures var r := Answer(m, lower, prefix, limit);
      && r[i].popularity >= r[j].popularity
      && (r[i].popularity == r[j].popularity ==> exists n: nat :: PartAt(r[i].term, r[j].term, n))
  {
    AnswerMeaning(m, lower, prefix, limit);
    var r := Answer(m, lower, prefix, limit);
    assert Before(r[i], r[j]);
    LessMeaning(r[i].term, r[j].term);
  }

  /** An entry is answered only if its key starts with the lower-cased prefix; with no limit below the
      number of such keys all of them are, and of those left out none is more popular than any listed.
      An empty prefix answers nothing. */
  lemma AnswerMembers(m: Entries, lower: string -> string, prefix: string, limit: int, k: string)
    requires KeyedBy(m, lower) && k in m
    ensures var r := Answer(m, lower, prefix, limit);
      if prefix == "" then r == []
      else
        var starts := |lower(prefix)| <= |k| && k[..|lower(prefix)|] == lower(prefix);
        && (m[k] in r ==> starts)
        && (starts && m[k] !in r ==> forall x :: x in r ==> x.popularity >= m[k].popularity)
        && (starts && limit >= |m| ==> m[k] in r)
        && (limit >= 0 ==> |r| <= limit)
  {
    if prefix != "" {
      var p := lower(prefix);
      AnswerMeaning(m, lower, prefix, limit);
      assert p <= k <==> |p| <= |k| && k[..|p|] == p;
      if p <= k { assert m[k] in Matching(m, p); }
      if limit >= |m| {
        MatchingSize(m, p);
        AllAnswered(m, lower, prefix, limit);
      }
    }
  }

  lemma MatchingSize(m: Entries, p: string)
    ensures |Matching(m, p)| <= |m|
  {
    assert Matching(m, p) <= m.Values;
    SubsetSize(Matching(m, p), m.Values);
    ValuesAtMost(m);
  }

  lemma {:induction false} ValuesAtMost(m: Entries)
    ensures |m.Values| <= |m|
  {
    if m != map[] {
      var k :| k in m;
      ValuesAtMost(m - {k});
      forall x | x in m.Values && x != m[k] ensures x in (m - {k}).Values {
        var j :| j in m && m[j] == x;
        assert (m - {k})[j] == x;
      }
      SubsetSize(m.Values, (m - {k}).Values + {m[k]});
      assert m.Keys == (m - {k}).Keys + {k};
    }
  }

  lemma AllAnswered(m: Entries, lower: string -> string, prefix: string, limit: int)
    requires KeyedBy(m, lower) && prefix != "" && limit >= |Matching(m, lower(prefix))|
    ensures forall x :: x in Answer(m, lower, prefix, limit) <==> x in Matching(m, lower(prefix))
  {
    SomeListing(Matching(m, lower(prefix)));
    var s: seq<TermData> :| Lists(s, Matching(m, lower(prefix)));
    AnswerFromListing(m, lower, prefix, limit, s);
    SortedInOrder(s);
    ListingSize(Sorted(s), Matching(m, lower(prefix)));
    assert Take(Sorted(s), limit) == Sorted(s);
  }

  lemma {:induction false} ListingSize(s: seq<TermData>, members: set<TermData>)
    requires InOrder(s) && forall x :: x in s <==> x in members
    ensures |s| == |members|
  {
    if s == [] {
      assert members == {};
    } else {
      TailMembers(s);
      assert s[0] in members;
      ListingSize(s[1..], members - {s[0]});
    }
  }

  // --- The trie ---------------------------------------------------------------------------------

  class TrieNode {
    var children: map<char, TrieNode>
    var isEndOfWord: bool
    var termData: Option<TermData>
    /** The path to this node from the root, and that of its parent. */
    ghost const path: string
    ghost const up: string

    constructor (ghost path: string, ghost up: string)
      ensures children == map[] && !isEndOfWord && termData == None
      ensures this.path == path && this.up == up
    {
      children, isEndOfWord, termData := map[], false, None;
      this.path, this.up := path, up;
    }
  }

  class SearchTrie {
    const lower: string -> string
    const root: TrieNode
    /** The node each path from the root leads to. */
    ghost var paths: map<string, TrieNode>
    ghost var nodes: set<TrieNode>
    /** The map the trie stands for. */
    ghost var contents: Entries

    ghost predicate Linked()
      reads this, nodes
    {
      && "" in paths && paths[""] == root
      && (forall p :: p in paths ==> paths[p] in nodes && paths[p].path == p)
      && (forall p, c {:trigger paths[p].children[c]} :: p in paths && c in paths[p].children ==>
            p + [c] in paths && paths[p].children[c] == paths[p + [c]])
      && (forall p {:trigger paths[p].up} :: p in paths && p != "" ==>
            && paths[p].up in paths && p == paths[p].up + [p[|p| - 1]]
            && p[|p| - 1] in paths[paths[p].up].children)
    }

    ghost predicate Labelled()
      reads this, nodes
    {
      && (forall p :: p in paths ==> paths[p] in nodes && (paths[p].isEndOfWord <==> paths[p].termData.Some?))
      && (forall p :: p in paths && paths[p].isEndOfWord ==> p in contents)
      && (forall p :: p in contents ==> p in paths && paths[p].isEndOfWord && paths[p].termData == Some(contents[p]))
      && KeyedBy(contents, lower)
    }

    ghost predicate Valid()
      reads this, nodes
    {
      Linked() && Labelled()
    }

    constructor (lower: string -> string)
      ensures Valid() && fresh(nodes) && this.lower == lower && contents == map[]
    {
      this.lower := lower;
      var node := new TrieNode("", "");
      root := node;
      paths := map["" := node];
      nodes := {node};
      contents := map[];
    }

    lemma NoSuchPath(node: TrieNode, c: char)
      requires Linked() && node.path in paths && paths[node.path] == node && c !in node.children
      ensures node.path + [c] !in paths
    {
      var p := node.path + [c];
      assert p[..|p| - 1] == node.path;
      if p in paths { HasParent(p); }
    }

    lemma HasParent(p: string)
      requires Linked() && p in paths && p != ""
      ensures p[..|p| - 1] in paths && p[|p| - 1] in paths[p[..|p| - 1]].children
    {
      assert paths[p].up == p[..|p| - 1];
    }

    /** Hangs a new node under `node` for `c`. */
    method Hang(node: TrieNode, c: char) returns (made: TrieNode)
      requires Linked() && node.path in paths && paths[node.path] == node && c !in node.children
      modifies this`paths, this`nodes, node`children
      ensures Linked() && node.path + [c] !in old(paths)
      ensures fresh(made) && !made.isEndOfWord && made.termData == None && made.path == node.path + [c]
      ensures paths == old(paths)[made.path := made] && nodes == old(nodes) + {made}
      ensures node.children == old(node.children)[c := made]
    {
      NoSuchPath(node, c);
      made := new TrieNode(node.path + [c], node.path);
      node.children := node.children[c := made];
      paths, nodes := paths[node.path + [c] := made], nodes + {made};
    }

    /** The child for `c`, created if there is none. */
    method Descend(node: TrieNode, c: char) returns (child: TrieNode)
      requires Valid() && node.path in paths && paths[node.path] == node
      modifies this`paths, this`nodes, node`children
      ensures Valid() && fresh(nodes - old(nodes)) && old(nodes) <= nodes
      ensures child.path == node.path + [c] && child.path in paths && paths[child.path] == child
    {
      if c !in node.children {
        child := Hang(node, c);
      } else {
        child := node.children[c];
      }
    }

    method Mark(node: TrieNode, data: TermData)
      requires Valid() && node.path in paths && paths[node.path] == node && lower(data.term) == node.path
      modifies this`contents, node
      ensures Valid() && contents == old(contents)[node.path := data]
    {
      node.isEndOfWord := true;
      node.termData := Some(data);
      contents := contents[node.path := data];
    }

    method Insert(term: string, category: string, popularity: int)
      requires Valid()
      modifies this, nodes
      ensures Valid() && fresh(nodes - old(nodes))
      ensures contents == old(contents)[lower(term) := TermData(term, category, popularity)]
    {
      var key := lower(term);
      var node := root;
      for i := 0 to |key|
        invariant Valid() && fresh(nodes - old(nodes))
        invariant node.path == key[..i] && node.path in paths && paths[node.path] == node
        invariant contents == old(contents)
      {
        assert key[..i + 1] == key[..i] + [key[i]];
        node := Descend(node, key[i]);
      }
      assert key[..|key|] == key;
      Mark(node, TermData(term, category, popularity));
    }

    lemma {:induction false} PathPrefix(k: string, i: nat)
      requires Linked() && k in paths && i <= |k|
      ensures k[..i] in paths && (i < |k| ==> k[i] in paths[k[..i]].children)
    {
      if i == |k| {
        assert k[..i] == k;
      } else {
        HasParent(k);
        if i < |k| - 1 {
          PathPrefix(k[..|k| - 1], i);
          assert k[..|k| - 1][..i] == k[..i];
        }
      }
    }

    /** The paths at or below `p`. */
    ghost function Under(p: string): set<string>
      reads this
    {
      set q | q in paths && p <= q
    }

    lemma UnderShrinks(p: string, c: char)
      requires p in paths
      ensures Under(p + [c]) < Under(p)
    {
      assert p in Under(p) && p !in Under(p + [c]);
      forall q | q in Under(p + [c]) ensures q in Under(p) { assert p <= p + [c] <= q; }
    }

    /** Appends the entries at and below `node` to `results`, in some order. */
    method CollectWords(node: TrieNode, results: seq<TermData>) returns (out: seq<TermData>, ghost found: seq<TermData>)
      requires Valid() && node.path in paths && paths[node.path] == node
      ensures out == results + found && Lists(found, Matching(contents, node.path))
      decreases Under(node.path)
    {
      ghost var p := node.path;
      out, found := results, [];
      if node.isEndOfWord && node.termData.Some? {
        out, found := out + [node.termData.value], [node.termData.value];
      }
      ghost var done: set<char> := {};
      var todo := node.children.Keys;
      while todo != {}
        invariant done + todo == node.children.Keys && done !! todo
        invariant out == results + found && Lists(found, Partial(contents, p, done))
      {
        var c :| c in todo;
        assert node.children[c].path == p + [c];
        UnderShrinks(p, c);
        ghost var more;
        ghost var before := found;
        out, more := CollectWords(node.children[c], out);
        found := before + more;
        ListsMore(contents, lower, p, done, c, before, more);
        done, todo := done + {c}, todo - {c};
      }
      PartialComplete(node);
    }

    lemma PartialComplete(node: TrieNode)
      requires Valid() && node.path in paths && paths[node.path] == node
      ensures Partial(contents, node.path, node.children.Keys) == Matching(contents, node.path)
    {
      var p := node.path;
      forall k | k in contents && p <= k ensures k == p || k[|p|] in node.children {
        assert |k| == |p| ==> k == p;
        PathPrefix(k, |p|);
        assert k[..|p|] == p;
      }
      forall x | x in Matching(contents, p) ensures x in Partial(contents, p, node.children.Keys) {
        var k :| k in contents && p <= k && contents[k] == x;
      }
    }

    /** The node the path `key` leads to, if there is one. */
    method FindNode(key: string) returns (found: Option<TrieNode>)
      requires Valid()
      ensures found.Some? ==> found.value.path == key && key in paths && paths[key] == found.value
      ensures found.None? ==> Matching(contents, key) == {}
    {
      var node := root;
      for i := 0 to |key|
        invariant node.path == key[..i] && node.path in paths && paths[node.path] == node
      {
        if key[i] !in node.children {
          NothingMatches(node, key, i);
          return None;
        }
        assert key[..i + 1] == key[..i] + [key[i]];
        node := node.children[key[i]];
      }
      assert key[..|key|] == key;
      found := Some(node);
    }

    /** The first `limit` entries with this prefix, by popularity: what the plain map would answer. */
    method SearchPrefix(prefix: string, limit: int) returns (r: seq<TermData>)
      requires Valid()
      ensures r == Answer(contents, lower, prefix, limit)
      ensures forall i, j :: 0 <= i < j < |r| ==> r[i].popularity >= r[j].popularity
    {
      if prefix == "" { return []; }
      var node := FindNode(lower(prefix));
      ghost var found: seq<TermData> := [];
      r := [];
      if node.Some? {
        r, found := CollectWords(node.value, []);
        assert [] + found == found;
        r := Take(Sorted(r), limit);
      }
      AnswerFromListing(contents, lower, prefix, limit, found);
      forall i, j | 0 <= i < j < |r| ensures r[i].popularity >= r[j].popularity {
        AnswerOrder(contents, lower, prefix, limit, i, j);
      }
    }

    lemma NothingMatches(node: TrieNode, key: string, i: nat)
      requires Valid() && i < |key| && node.path == key[..i] && node.path in paths && paths[node.path] == node
      requires key[i] !in node.children
      ensures Matching(contents, key) == {}
    {
      forall k | k in contents ensures !(key <= k) {
        if i < |k| { PathPrefix(k, i); }
        assert key <= k ==> k[..i] == key[..i] && k[i] == key[i];
      }
    }
  }
}
