/**
 * Consistent hashing: every node owns `replicas` points on the ring, and a key goes to the owner of
 * the first point at or after its hash, or of the lowest point of all.
 */
module HashRing {
  import opened Basics
  import opened Decimals

  type Ring = map<nat, string>

  function VirtualKey(node: string, i: nat): string { node + ":" + Digits(i) }

  /** A ring's parameters. */
  datatype Config = Config(hash: string -> nat, replicas: nat)

  function Point(cfg: Config, node: string, i: nat): nat { cfg.hash(VirtualKey(node, i)) }

  predicate IsPointOf(cfg: Config, node: string, k: nat) {
    exists i: nat :: i < cfg.replicas && k == Point(cfg, node, i)
  }

  // --- Rings ------------------------------------------------------------------------------------

  /** The node's first `count` points, over whatever was there. */
  function Place(cfg: Config, ring: Ring, node: string, count: nat): Ring {
    if count == 0 then ring else Place(cfg, ring, node, count - 1)[Point(cfg, node, count - 1) := node]
  }

  function Added(cfg: Config, ring: Ring, node: string): Ring { Place(cfg, ring, node, cfg.replicas) }

  function Removed(ring: Ring, node: string): Ring { map k | k in ring && ring[k] != node :: ring[k] }

  function Build(cfg: Config, nodes: seq<string>): Ring {
    if nodes == [] then map[] else Added(cfg, Build(cfg, nodes[..|nodes| - 1]), nodes[|nodes| - 1])
  }

  /** The first point at or after the hash, going round. */
  ghost predicate IsSuccessor(keys: set<nat>, hash: nat, k: nat) {
    && k in keys
    && (if hash <= k then forall j :: j in keys && j >= hash ==> k <= j
        else forall j :: j in keys ==> k <= j < hash)
  }

  ghost predicate RoutesTo(ring: Ring, hash: nat, owner: Option<string>) {
    match owner
    case None => ring == map[]
    case Some(node) => exists k :: IsSuccessor(ring.Keys, hash, k) && ring[k] == node
  }

  lemma SuccessorUnique(keys: set<nat>, hash: nat, k: nat, k': nat)
    requires IsSuccessor(keys, hash, k) && IsSuccessor(keys, hash, k')
    ensures k == k'
  {
  }

  lemma RouteUnique(ring: Ring, hash: nat, owner: Option<string>, owner': Option<string>)
    requires RoutesTo(ring, hash, owner) && RoutesTo(ring, hash, owner')
    ensures owner == owner'
  {
    if owner.Some? && owner'.Some? {
      var k :| IsSuccessor(ring.Keys, hash, k) && ring[k] == owner.value;
      var k' :| IsSuccessor(ring.Keys, hash, k') && ring[k'] == owner'.value;
      SuccessorUnique(ring.Keys, hash, k, k');
    }
  }

  /** Going up from the hash, the hash included, the first point met decides; if there is none, the
      lowest point of all. An empty ring has no owner for any key, and no other ring leaves one out. */
  lemma RoutesMeaning(ring: Ring, hash: nat, k: nat)
    requires k in ring
    ensures hash <= k && (forall j :: hash <= j < k ==> j !in ring) ==> RoutesTo(ring, hash, Some(ring[k]))
    ensures (forall j :: j in ring ==> k <= j < hash) ==> RoutesTo(ring, hash, Some(ring[k]))
    ensures !RoutesTo(ring, hash, None)
  {
    assert hash <= k && (forall j :: hash <= j < k ==> j !in ring) ==> IsSuccessor(ring.Keys, hash, k);
    assert (forall j :: j in ring ==> k <= j < hash) ==> IsSuccessor(ring.Keys, hash, k);
  }

  // --- Which keys move --------------------------------------------------------------------------

  lemma {:induction false} PlacedAt(cfg: Config, ring: Ring, node: string, count: nat, k: nat)
    ensures var ring' := Place(cfg, ring, node, count);
            if exists i: nat :: i < count && k == Point(cfg, node, i) then k in ring' && ring'[k] == node
            else (k in ring' <==> k in ring) && (k in ring ==> ring'[k] == ring[k])
  {
    if count > 0 { PlacedAt(cfg, ring, node, count - 1, k); }
  }

  /** Adding a node, even over points of others, moves a key only to the node itself. */
  lemma AddMovesOnlyToNew(cfg: Config, ring: Ring, node: string, hash: nat, owner: Option<string>)
    requires RoutesTo(Added(cfg, ring, node), hash, owner)
    ensures owner == Some(node) || RoutesTo(ring, hash, owner)
  {
    var ring' := Added(cfg, ring, node);
    forall k
      ensures (k in ring ==> k in ring') && (k in ring' ==> ring'[k] == node || (k in ring && ring'[k] == ring[k]))
    {
      PlacedAt(cfg, ring, node, cfg.replicas, k);
    }
    if owner.Some? && owner.value != node {
      var k :| IsSuccessor(ring'.Keys, hash, k) && ring'[k] == owner.value;
      assert IsSuccessor(ring.Keys, hash, k);
    }
  }

  /** A node that is added takes over every key whose hash is at one of its points, or below it with no
      point of the old ring in between. */
  lemma TakenOver(cfg: Config, ring: Ring, node: string, hash: nat, k: nat)
    requires IsPointOf(cfg, node, k) && hash <= k && forall j :: hash <= j < k ==> j !in ring
    ensures RoutesTo(Added(cfg, ring, node), hash, Some(node))
  {
    var ring' := Added(cfg, ring, node);
    PlacedAt(cfg, ring, node, cfg.replicas, k);
    var m := FirstPoint(ring', hash, k);
    PlacedAt(cfg, ring, node, cfg.replicas, m);
    RoutesMeaning(ring', hash, m);
  }

  lemma {:induction false} FirstPoint(ring: Ring, hash: nat, k: nat) returns (m: nat)
    requires k in ring && hash <= k
    ensures m in ring && hash <= m <= k && forall j :: hash <= j < m ==> j !in ring
  {
    if j :| hash <= j < k && j in ring {
      m := FirstPoint(ring, hash, j);
    } else {
      m := k;
    }
  }

  /** Removing a node leaves it no key and moves only keys it had. */
  lemma RemoveMovesOnlyOwned(ring: Ring, node: string, hash: nat, owner: Option<string>)
    requires RoutesTo(ring, hash, owner)
    ensures owner != Some(node) ==> RoutesTo(Removed(ring, node), hash, owner)
    ensures !RoutesTo(Removed(ring, node), hash, Some(node))
  {
    if owner.Some? && owner.value != node {
      var k :| IsSuccessor(ring.Keys, hash, k) && ring[k] == owner.value;
      assert IsSuccessor(Removed(ring, node).Keys, hash, k);
    }
  }

  /** Adding a node and removing it again gives the same ring exactly when the node had no point and
      its points were free. */
  lemma AddRemoveIff(cfg: Config, ring: Ring, node: string)
    ensures Removed(Added(cfg, ring, node), node) == ring
       <==> forall k :: k in ring ==> ring[k] != node && !IsPointOf(cfg, node, k)
  {
    var ring' := Removed(Added(cfg, ring, node), node);
    forall k
      ensures k in ring' <==> k in ring && ring[k] != node && !IsPointOf(cfg, node, k)
      ensures k in ring' ==> ring'[k] == ring[k]
    {
      PlacedAt(cfg, ring, node, cfg.replicas, k);
    }
    if forall k :: k in ring ==> ring[k] != node && !IsPointOf(cfg, node, k) {
      assert forall k :: k in ring' <==> k in ring;
    }
    if ring' == ring {
      forall k | k in ring ensures ring[k] != node && !IsPointOf(cfg, node, k) { assert k in ring'; }
    }
  }

  // --- Runs -------------------------------------------------------------------------------------

  datatype State = State(nodes: seq<string>, ring: Ring)

  datatype Change = Add(node: string) | Remove(node: string)

  /** A list without the first occurrence of `node`. */
  function WithoutFirst(nodes: seq<string>, node: string): seq<string> {
    if nodes == [] then []
    else if nodes[0] == node then nodes[1..]
    else [nodes[0]] + WithoutFirst(nodes[1..], node)
  }

  function Apply(cfg: Config, s: State, c: Change): State {
    match c
    case Add(n) => State(s.nodes + [n], Added(cfg, s.ring, n))
    case Remove(n) => if n in s.nodes then State(WithoutFirst(s.nodes, n), Removed(s.ring, n)) else s
  }

  function Run(cfg: Config, nodes: seq<string>, cs: seq<Change>): State {
    if cs == [] then State(nodes, Build(cfg, nodes)) else Apply(cfg, Run(cfg, nodes, cs[..|cs| - 1]), cs[|cs| - 1])
  }

  function Listed(nodes: seq<string>): set<string> { set n | n in nodes }

  /** The nodes whose last change is not a removal, those given at the start being added first. */
  function Served(nodes: seq<string>, cs: seq<Change>): set<string> {
    if cs == [] then Listed(nodes)
    else
      match cs[|cs| - 1]
      case Add(n) => Served(nodes, cs[..|cs| - 1]) + {n}
      case Remove(n) => Served(nodes, cs[..|cs| - 1]) - {n}
  }

  /** No two nodes share a point. */
  ghost predicate CollisionFree(cfg: Config) {
    forall n, m, k :: IsPointOf(cfg, n, k) && IsPointOf(cfg, m, k) ==> n == m
  }

  /** The ring holds exactly the points of these nodes. */
  ghost predicate IsRingOf(cfg: Config, ring: Ring, nodes: set<string>) {
    && (forall k :: k in ring ==> ring[k] in nodes && IsPointOf(cfg, ring[k], k))
    && (forall n, k :: n in nodes && IsPointOf(cfg, n, k) ==> k in ring && ring[k] == n)
  }

  lemma {:induction false} WithoutFirstMeaning(nodes: seq<string>, node: string)
    ensures forall n :: n in WithoutFirst(nodes, node) ==> n in nodes
    ensures forall n :: n != node && n in nodes ==> n in WithoutFirst(nodes, node)
  {
    if nodes != [] {
      WithoutFirstMeaning(nodes[1..], node);
      assert nodes == [nodes[0]] + nodes[1..];
    }
  }

  /** Of several occurrences the first is removed, and the others keep their order. */
  lemma {:induction false} WithoutFirstAt(nodes: seq<string>, node: string, i: nat)
    requires i < |nodes| && nodes[i] == node && forall j :: 0 <= j < i ==> nodes[j] != node
    ensures WithoutFirst(nodes, node) == nodes[..i] + nodes[i + 1..]
  {
    if i > 0 {
      WithoutFirstAt(nodes[1..], node, i - 1);
      assert nodes[..i] == [nodes[0]] + nodes[1..][..i - 1] && nodes[1..][i..] == nodes[i + 1..];
    }
  }

  lemma AddedIsRingOf(cfg: Config, ring: Ring, nodes: set<string>, node: string)
    requires CollisionFree(cfg) && IsRingOf(cfg, ring, nodes)
    ensures IsRingOf(cfg, Added(cfg, ring, node), nodes + {node})
  {
    var ring' := Added(cfg, ring, node);
    forall k
      ensures if IsPointOf(cfg, node, k) then k in ring' && ring'[k] == node
              else (k in ring' <==> k in ring) && (k in ring ==> ring'[k] == ring[k])
    {
      PlacedAt(cfg, ring, node, cfg.replicas, k);
    }
  }

  lemma RemovedIsRingOf(cfg: Config, ring: Ring, nodes: set<string>, node: string)
    requires IsRingOf(cfg, ring, nodes)
    ensures IsRingOf(cfg, Removed(ring, node), nodes - {node})
  {
  }

  lemma {:induction false} BuildIsRingOf(cfg: Config, nodes: seq<string>)
    requires CollisionFree(cfg)
    ensures IsRingOf(cfg, Build(cfg, nodes), Listed(nodes))
  {
    if nodes != [] {
      var before, last := nodes[..|nodes| - 1], nodes[|nodes| - 1];
      BuildIsRingOf(cfg, before);
      AddedIsRingOf(cfg, Build(cfg, before), Listed(before), last);
      assert nodes == before + [last] && Listed(nodes) == Listed(before) + {last};
    }
  }

  /** A node that is served is listed. */
  lemma {:induction false} ServedAreListed(cfg: Config, nodes: seq<string>, cs: seq<Change>)
    ensures Served(nodes, cs) <= Listed(Run(cfg, nodes, cs).nodes)
  {
    if cs != [] {
      var before, c := cs[..|cs| - 1], cs[|cs| - 1];
      ServedAreListed(cfg, nodes, before);
      WithoutFirstMeaning(Run(cfg, nodes, before).nodes, c.node);
    }
  }

  /** After any history the ring holds exactly the points of the nodes whose last change is not a
      removal. */
  lemma {:induction false} RunIsRingOf(cfg: Config, nodes: seq<string>, cs: seq<Change>)
    requires CollisionFree(cfg)
    ensures IsRingOf(cfg, Run(cfg, nodes, cs).ring, Served(nodes, cs))
  {
    if cs == [] {
      BuildIsRingOf(cfg, nodes);
    } else {
      var before, c := cs[..|cs| - 1], cs[|cs| - 1];
      var s := Run(cfg, nodes, before);
      RunIsRingOf(cfg, nodes, before);
      ServedAreListed(cfg, nodes, before);
      match c
      case Add(n) => AddedIsRingOf(cfg, s.ring, Served(nodes, before), n);
      case Remove(n) =>
        RemovedIsRingOf(cfg, s.ring, Served(nodes, before), n);
        if n !in s.nodes { assert Served(nodes, before) - {n} == Served(nodes, before); }
    }
  }

  /** A ring with points tells which nodes it is the ring of. */
  lemma SameRingSameNodes(cfg: Config, ring: Ring, nodes: set<string>, nodes': set<string>)
    requires IsRingOf(cfg, ring, nodes) && IsRingOf(cfg, ring, nodes') && cfg.replicas > 0
    ensures nodes == nodes'
  {
    forall n | n in nodes + nodes' ensures n in nodes && n in nodes' {
      var k := Point(cfg, n, 0);
      assert IsPointOf(cfg, n, k);
      assert k in ring && ring[k] == n;
    }
  }

  /** The ring is that of the listed nodes exactly if each of them is still served. */
  lemma ListedIsServedIff(cfg: Config, nodes: seq<string>, cs: seq<Change>)
    requires CollisionFree(cfg)
    ensures var s := Run(cfg, nodes, cs);
            var kept := forall n :: n in s.nodes ==> n in Served(nodes, cs);
            IsRingOf(cfg, s.ring, Listed(s.nodes)) <==> cfg.replicas == 0 || kept
  {
    var s := Run(cfg, nodes, cs);
    RunIsRingOf(cfg, nodes, cs);
    ServedAreListed(cfg, nodes, cs);
    if forall n :: n in s.nodes ==> n in Served(nodes, cs) {
      assert Listed(s.nodes) == Served(nodes, cs);
    } else if cfg.replicas > 0 && IsRingOf(cfg, s.ring, Listed(s.nodes)) {
      SameRingSameNodes(cfg, s.ring, Listed(s.nodes), Served(nodes, cs));
    }
  }

  /** The change takes a node out of the ring and leaves it in the list. */
  predicate LeavesListed(s: State, c: Change) { c.Remove? && c.node in WithoutFirst(s.nodes, c.node) }

  /** One change keeps the ring that of the listed nodes exactly if it does not remove a node that is
      listed more than once. */
  lemma ChangeKeepsRingIff(cfg: Config, s: State, c: Change)
    requires CollisionFree(cfg) && cfg.replicas > 0 && IsRingOf(cfg, s.ring, Listed(s.nodes))
    ensures var s' := Apply(cfg, s, c); IsRingOf(cfg, s'.ring, Listed(s'.nodes)) <==> !LeavesListed(s, c)
  {
    var s' := Apply(cfg, s, c);
    WithoutFirstMeaning(s.nodes, c.node);
    match c
    case Add(n) =>
      AddedIsRingOf(cfg, s.ring, Listed(s.nodes), n);
      assert Listed(s'.nodes) == Listed(s.nodes) + {n};
    case Remove(n) =>
      RemovedIsRingOf(cfg, s.ring, Listed(s.nodes), n);
      if n !in s.nodes {
        assert s' == s;
      } else if LeavesListed(s, c) {
        if IsRingOf(cfg, s'.ring, Listed(s'.nodes)) {
          SameRingSameNodes(cfg, s'.ring, Listed(s'.nodes), Listed(s.nodes) - {n});
        }
      } else {
        assert Listed(s'.nodes) == Listed(s.nodes) - {n};
      }
  }

  /** A history that never does so serves every node that is listed, whatever is added again. */
  lemma {:induction false} NeverLeavesListed(cfg: Config, nodes: seq<string>, cs: seq<Change>)
    requires forall k :: 0 <= k < |cs| ==> !LeavesListed(Run(cfg, nodes, cs[..k]), cs[k])
    ensures Listed(Run(cfg, nodes, cs).nodes) == Served(nodes, cs)
  {
    if cs != [] {
      var before, c := cs[..|cs| - 1], cs[|cs| - 1];
      assert forall k :: 0 <= k < |before| ==> before[..k] == cs[..k];
      NeverLeavesListed(cfg, nodes, before);
      assert !LeavesListed(Run(cfg, nodes, before), c);
      WithoutFirstMeaning(Run(cfg, nodes, before).nodes, c.node);
    }
  }

  ghost predicate SameRoutes(s: State, s': State) {
    forall hash, owner :: RoutesTo(s.ring, hash, owner) <==> RoutesTo(s'.ring, hash, owner)
  }

  /** Routing depends on nothing but which nodes are served: not on the order in which they came, nor
      on how often, nor on others that came and went. */
  ghost predicate RoutingByServed(cfg: Config) {
    forall nodes, cs, nodes', cs' ::
      Served(nodes, cs) == Served(nodes', cs') ==> SameRoutes(Run(cfg, nodes, cs), Run(cfg, nodes', cs'))
  }

  /** At a shared point, the node that came last wins. */
  lemma CollisionShows(cfg: Config, n: string, m: string, k: nat)
    requires n != m && IsPointOf(cfg, n, k) && IsPointOf(cfg, m, k)
    ensures !SameRoutes(Run(cfg, [n, m], []), Run(cfg, [m, n], []))
  {
    var s, s' := Run(cfg, [n, m], []), Run(cfg, [m, n], []);
    BuildLast(cfg, [n], m, k);
    BuildLast(cfg, [m], n, k);
    assert [n, m] == [n] + [m] && [m, n] == [m] + [n];
    assert IsSuccessor(s.ring.Keys, k, k) && IsSuccessor(s'.ring.Keys, k, k);
    assert RoutesTo(s.ring, k, Some(m)) && RoutesTo(s'.ring, k, Some(n));
    if RoutesTo(s'.ring, k, Some(m)) { RouteUnique(s'.ring, k, Some(n), Some(m)); }
  }

  lemma BuildLast(cfg: Config, nodes: seq<string>, n: string, k: nat)
    requires IsPointOf(cfg, n, k)
    ensures var ring := Build(cfg, nodes + [n]); k in ring && ring[k] == n
  {
    assert (nodes + [n])[..|nodes|] == nodes;
    PlacedAt(cfg, Build(cfg, nodes), n, cfg.replicas, k);
  }

  lemma RingsAgree(cfg: Config, ring: Ring, ring': Ring, nodes: set<string>)
    requires IsRingOf(cfg, ring, nodes) && IsRingOf(cfg, ring', nodes)
    ensures ring == ring'
  {
    assert forall k :: k in ring ==> ring[k] in nodes && IsPointOf(cfg, ring[k], k);
    assert forall k :: k in ring' ==> ring'[k] in nodes && IsPointOf(cfg, ring'[k], k);
  }

  /** Over all histories, routing depends only on the nodes that are served if and only if no two nodes
      share a point. */
  lemma RoutingByNodesIff(cfg: Config)
    ensures RoutingByServed(cfg) <==> CollisionFree(cfg)
  {
    if CollisionFree(cfg) {
      forall nodes, cs, nodes', cs' | Served(nodes, cs) == Served(nodes', cs')
        ensures SameRoutes(Run(cfg, nodes, cs), Run(cfg, nodes', cs'))
      {
        RunIsRingOf(cfg, nodes, cs);
        RunIsRingOf(cfg, nodes', cs');
        RingsAgree(cfg, Run(cfg, nodes, cs).ring, Run(cfg, nodes', cs').ring, Served(nodes, cs));
      }
    } else {
      var n, m, k :| IsPointOf(cfg, n, k) && IsPointOf(cfg, m, k) && n != m;
      CollisionShows(cfg, n, m, k);
      assert Served([n, m], []) == Served([m, n], []);
    }
  }

  /** Routing depends on nothing but which nodes are listed. */
  ghost predicate RoutingByListed(cfg: Config) {
    forall nodes, cs, nodes', cs' :: Listed(Run(cfg, nodes, cs).nodes) == Listed(Run(cfg, nodes', cs').nodes) ==>
      SameRoutes(Run(cfg, nodes, cs), Run(cfg, nodes', cs'))
  }

  /** That is so only of rings without points. */
  lemma RoutingByListedIff(cfg: Config)
    ensures RoutingByListed(cfg) <==> cfg.replicas == 0
  {
    if cfg.replicas == 0 {
      forall nodes, cs, nodes', cs' ensures SameRoutes(Run(cfg, nodes, cs), Run(cfg, nodes', cs')) {
        NoPoints(cfg, nodes, cs);
        NoPoints(cfg, nodes', cs');
      }
    } else {
      ListedNotRouted(cfg, "n");
    }
  }

  lemma ListedNotRouted(cfg: Config, node: string)
    requires cfg.replicas > 0
    ensures var s, s' := Run(cfg, [node], [Add(node), Remove(node)]), Run(cfg, [node], []);
            s.nodes == s'.nodes && !SameRoutes(s, s')
  {
    OnlyItself(cfg, node);
    var k := Point(cfg, node, 0);
    BuildLast(cfg, [], node, k);
    assert [] + [node] == [node];
    NoneAgainstSome(Run(cfg, [node], [Add(node), Remove(node)]), Run(cfg, [node], []), k);
  }

  lemma NoneAgainstSome(s: State, s': State, k: nat)
    requires s.ring == map[] && k in s'.ring
    ensures !SameRoutes(s, s')
  {
    assert RoutesTo(s.ring, k, None) && !RoutesTo(s'.ring, k, None);
  }

  lemma {:induction false} NoPoints(cfg: Config, nodes: seq<string>, cs: seq<Change>)
    requires cfg.replicas == 0
    ensures Run(cfg, nodes, cs).ring == map[]
  {
    if cs != [] { NoPoints(cfg, nodes, cs[..|cs| - 1]); } else { NothingBuilt(cfg, nodes); }
  }

  lemma {:induction false} NothingBuilt(cfg: Config, nodes: seq<string>)
    requires cfg.replicas == 0
    ensures Build(cfg, nodes) == map[]
  {
    if nodes != [] { NothingBuilt(cfg, nodes[..|nodes| - 1]); }
  }

  lemma OnlyItself(cfg: Config, node: string)
    ensures var s := Run(cfg, [node], [Add(node), Remove(node)]); s.nodes == [node] && s.ring == map[]
  {
    var cs := [Add(node), Remove(node)];
    assert cs[..1] == [Add(node)] && [Add(node)][..0] == [] && [node][..0] == [];
    var s1 := Run(cfg, [node], [Add(node)]);
    assert Run(cfg, [node], []) == State([node], Build(cfg, [node]));
    assert s1 == State([node, node], Added(cfg, Build(cfg, [node]), node));
    forall k | k in s1.ring ensures s1.ring[k] == node {
      PlacedAt(cfg, Build(cfg, [node]), node, cfg.replicas, k);
      PlacedAt(cfg, map[], node, cfg.replicas, k);
      assert Build(cfg, [node]) == Added(cfg, map[], node);
    }
  }

  // --- Virtual keys -----------------------------------------------------------------------------

  /** The last colon separates a node's name from the number, whatever the name. */
  lemma VirtualKeyInjective(n: string, i: nat, m: string, j: nat)
    requires VirtualKey(n, i) == VirtualKey(m, j)
    ensures n == m && i == j
  {
    var s := VirtualKey(n, i);
    ColonAt(n, i);
    ColonAt(m, j);
    assert n == s[..|n|] && m == s[..|m|];
    assert Digits(i) == s[|n| + 1..] && Digits(j) == s[|m| + 1..];
    DigitsInjective(i, j);
  }

  lemma ColonAt(n: string, i: nat)
    ensures var s := VirtualKey(n, i); s[|n|] == ':' && forall k :: |n| < k < |s| ==> s[k] != ':'
  {
    var s := VirtualKey(n, i);
    forall k | |n| < k < |s| ensures s[k] != ':' {
      assert s[k] == Digits(i)[k - |n| - 1];
    }
  }

  /** A hash without collisions gives a ring without them. */
  lemma InjectiveHash(cfg: Config)
    requires forall x, y :: cfg.hash(x) == cfg.hash(y) ==> x == y
    ensures CollisionFree(cfg)
  {
    forall n, m, k | IsPointOf(cfg, n, k) && IsPointOf(cfg, m, k) ensures n == m {
      var i: nat :| i < cfg.replicas && k == Point(cfg, n, i);
      var j: nat :| j < cfg.replicas && k == Point(cfg, m, j);
      VirtualKeyInjective(n, i, m, j);
    }
  }

  // --- Adding a node twice ----------------------------------------------------------------------

  /** A node that was added again and then removed is still listed but has no points. */
  lemma RemovedAfterSecondAdd(cfg: Config, nodes: seq<string>, node: string)
    requires node in nodes
    ensures var s := Run(cfg, nodes, [Add(node), Remove(node)]);
            node in s.nodes && forall k :: k in s.ring ==> s.ring[k] != node
  {
    var cs := [Add(node), Remove(node)];
    assert cs[..1] == [Add(node)] && cs[..1][..0] == [];
    var s1 := Run(cfg, nodes, [Add(node)]);
    assert Run(cfg, nodes, []) == State(nodes, Build(cfg, nodes));
    assert s1.nodes == nodes + [node] by { assert [Add(node)][..0] == []; }
    LastStays(nodes, node);
  }

  lemma {:induction false} LastStays(nodes: seq<string>, node: string)
    requires node in nodes
    ensures node in WithoutFirst(nodes + [node], node)
  {
    if nodes[0] == node {
      assert (nodes + [node])[1..] == nodes[1..] + [node];
    } else {
      assert (nodes + [node])[1..] == nodes[1..] + [node];
      LastStays(nodes[1..], node);
    }
  }

  // --- The ring object --------------------------------------------------------------------------

  ghost predicate IsLeast(s: set<nat>, m: nat) { m in s && forall k :: k in s ==> m <= k }

  lemma {:induction false} LeastFrom(s: set<nat>, x: nat) returns (m: nat)
    requires x in s
    ensures IsLeast(s, m)
  {
    if y :| y in s && y < x {
      m := LeastFrom(s - {x}, y);
      assert forall k :: k in s ==> k == x || k in s - {x};
    } else {
      m := x;
    }
  }

  lemma LeastExists(s: set<nat>)
    requires s != {}
    ensures exists m :: m in s && forall k :: k in s ==> m <= k
  {
    var x :| x in s;
    var m := LeastFrom(s, x);
    assert m in s;
  }

  function Sorted(s: set<nat>): seq<nat> {
    if s == {} then []
    else
      LeastExists(s);
      var m :| m in s && forall k :: k in s ==> m <= k;
      [m] + Sorted(s - {m})
  }

  predicate Increasing(keys: seq<nat>) { forall i, j :: 0 <= i < j < |keys| ==> keys[i] < keys[j] }

  predicate Lists(keys: seq<nat>, s: set<nat>) {
    Increasing(keys) && (forall i :: 0 <= i < |keys| ==> keys[i] in s) && forall k :: k in s ==> k in keys
  }

  lemma ListsLeastFirst(m: nat, rest: seq<nat>, s: set<nat>)
    requires IsLeast(s, m) && Lists(rest, s - {m})
    ensures Lists([m] + rest, s)
  {
    var keys := [m] + rest;
    assert forall i :: 0 < i < |keys| ==> keys[i] == rest[i - 1] && keys[i] in s - {m};
    forall k | k in s ensures k in keys {
      if k != m {
        assert k in s - {m};
        var i :| 0 <= i < |rest| && rest[i] == k;
        assert keys[i + 1] == k;
      }
    }
  }

  lemma {:induction false} SortedLists(s: set<nat>)
    ensures Lists(Sorted(s), s)
  {
    if s != {} {
      LeastExists(s);
      var m :| m in s && forall k :: k in s ==> m <= k;
      SortedLists(s - {m});
      ListsLeastFirst(m, Sorted(s - {m}), s);
      assert Sorted(s) == [m] + Sorted(s - {m});
    }
  }

  /** A list object, which the ring shares with whoever gave it. */
  class NodeList {
    var items: seq<string>

    constructor (items: seq<string>)
      ensures this.items == items
    {
      this.items := items;
    }
  }

  class HashRing {
    const cfg: Config
    const nodes: NodeList
    var ring: Ring
    var sortedKeys: seq<nat>

    predicate Valid() reads this { Lists(sortedKeys, ring.Keys) }

    function View(): State reads this, nodes { State(nodes.items, ring) }

    constructor (cfg: Config, nodes: NodeList)
      ensures Valid() && this.cfg == cfg && this.nodes == nodes && View() == Run(cfg, nodes.items, [])
    {
      this.cfg, this.nodes, this.ring := cfg, nodes, map[];
      new;
      for k := 0 to |nodes.items|
        invariant ring == Build(cfg, nodes.items[..k])
      {
        assert nodes.items[..k + 1][..k] == nodes.items[..k];
        PlacePoints(nodes.items[k]);
      }
      assert nodes.items[..|nodes.items|] == nodes.items;
      Sort();
    }

    method Sort()
      modifies this`sortedKeys
      ensures Valid()
    {
      SortedLists(ring.Keys);
      sortedKeys := Sorted(ring.Keys);
    }

    method PlacePoints(node: string)
      modifies this`ring
      ensures ring == Added(cfg, old(ring), node)
    {
      for i := 0 to cfg.replicas
        invariant ring == Place(cfg, old(ring), node, i)
      {
        ring := ring[Point(cfg, node, i) := node];
      }
    }

    /** The owner of the first point at or after the key's hash, going round. */
    method GetNode(key: string) returns (owner: Option<string>)
      requires Valid()
      ensures RoutesTo(ring, cfg.hash(key), owner)
    {
      if |ring| == 0 { return None; }
      var hash := cfg.hash(key);
      for i := 0 to |sortedKeys|
        invariant forall j :: 0 <= j < i ==> sortedKeys[j] < hash
      {
        if hash <= sortedKeys[i] {
          assert IsSuccessor(ring.Keys, hash, sortedKeys[i]);
          return Some(ring[sortedKeys[i]]);
        }
      }
      assert exists k :: k in ring.Keys;
      assert IsSuccessor(ring.Keys, hash, sortedKeys[0]);
      return Some(ring[sortedKeys[0]]);
    }

    method AddNode(node: string)
      modifies this, nodes
      ensures Valid() && View() == Apply(cfg, old(View()), Add(node))
    {
      nodes.items := nodes.items + [node];
      PlacePoints(node);
      Sort();
    }

    method RemoveNode(node: string)
      requires Valid()
      modifies this, nodes
      ensures Valid() && View() == Apply(cfg, old(View()), Remove(node))
    {
      if node in nodes.items {
        nodes.items := WithoutFirst(nodes.items, node);
        var keysToRemove := set k | k in ring && ring[k] == node;
        while keysToRemove != {}
          invariant nodes.items == WithoutFirst(old(nodes.items), node)
          invariant keysToRemove == set k | k in ring && ring[k] == node
          invariant forall k :: k in ring <==> k in old(ring) && (old(ring)[k] != node || k in keysToRemove)
          invariant forall k :: k in ring ==> ring[k] == old(ring)[k]
        {
          var k :| k in keysToRemove;
          ring := map j | j in ring && j != k :: ring[j];
          keysToRemove := keysToRemove - {k};
        }
        assert ring == Removed(old(ring), node);
        Sort();
      }
    }
  }
}
