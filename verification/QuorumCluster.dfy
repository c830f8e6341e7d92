/** The quorum store in its own form: node objects updated in place by the loops of a request. */
module QuorumCluster {
  import opened Basics
  import opened QuorumStore

  class KVSNode {
    const port: nat
    var alive: bool
    var redis: map<string, Cell>
    var clock: VectorClock
    var hintedHandoff: seq<Hint>

    constructor (port: nat)
      ensures this.port == port && View() == Node(port, true, map[], map[], [])
    {
      this.port, alive, redis, clock, hintedHandoff := port, true, map[], map[], [];
    }

    function View(): Node reads this { Node(port, alive, redis, clock, hintedHandoff) }

    method Increment()
      modifies this`clock
      ensures clock == Tick(old(View()))
    {
      var count := if port in clock then clock[port] else 0;
      clock := clock[port := count + 1];
    }

    method Set(key: string, value: Cell, vc: Option<VectorClock>)
      modifies this`redis
      ensures redis == Put(old(redis), key, value, vc)
    {
      redis := redis[key := value];
      redis := redis[ClockKey(key) := Clock(vc)];
    }

    method Get(key: string) returns (value: Option<Cell>, vc: Option<VectorClock>)
      ensures value == Lookup(redis, key) && vc == StoredClock(redis, key)
    {
      value := if key in redis then Some(redis[key]) else None;
      var stored := ClockKey(key);
      vc := if stored in redis && redis[stored].Clock? then redis[stored].clock else None;
    }

    method FlushHinted()
      modifies this`redis, this`hintedHandoff
      ensures View() == Flush(old(View()))
    {
      ghost var before := View();
      for k := 0 to |hintedHandoff|
        invariant hintedHandoff == before.hints && redis == Flushed(before.redis, hintedHandoff[..k])
      {
        assert hintedHandoff[..k + 1][..k] == hintedHandoff[..k];
        Set(hintedHandoff[k].key, Text(hintedHandoff[k].value), Some(hintedHandoff[k].clock));
      }
      assert hintedHandoff[..|hintedHandoff|] == hintedHandoff;
      hintedHandoff := [];
    }

    /** A dictionary keeps the place of a key that is assigned again. */
    method StoreHinted(key: string, value: Value, vc: VectorClock)
      modifies this`hintedHandoff
      ensures hintedHandoff == PutHint(old(hintedHandoff), Hint(key, value, vc))
    {
      hintedHandoff := PutHint(hintedHandoff, Hint(key, value, vc));
    }
  }

  /** `alive` lists the nodes that are alive, in order. */
  predicate ListsAlive(nodes: seq<Node>, alive: seq<nat>) {
    && |alive| == Alive(nodes)
    && (forall k :: 0 <= k < |alive| ==> alive[k] < |nodes| && nodes[alive[k]].alive && Rank(nodes, alive[k]) == k)
    && (forall i :: 0 <= i < |nodes| && nodes[i].alive ==> Rank(nodes, i) < |alive| && alive[Rank(nodes, i)] == i)
  }

  function AliveUpTo(nodes: seq<Node>, i: nat): (alive: seq<nat>)
    requires i <= |nodes|
    ensures |alive| == Rank(nodes, i)
  {
    if i == 0 then [] else AliveUpTo(nodes, i - 1) + if nodes[i - 1].alive then [i - 1] else []
  }

  lemma {:induction false} AliveAt(nodes: seq<Node>, i: nat, k: nat)
    requires i <= |nodes| && k < |AliveUpTo(nodes, i)|
    ensures var j := AliveUpTo(nodes, i)[k]; j < i && nodes[j].alive && Rank(nodes, j) == k
  {
    if k < |AliveUpTo(nodes, i - 1)| { AliveAt(nodes, i - 1, k); }
  }

  lemma {:induction false} AliveAtRank(nodes: seq<Node>, i: nat, j: nat)
    requires j < i <= |nodes| && nodes[j].alive
    ensures Rank(nodes, j) < |AliveUpTo(nodes, i)| && AliveUpTo(nodes, i)[Rank(nodes, j)] == j
  {
    if j < i - 1 { AliveAtRank(nodes, i - 1, j); }
  }

  lemma AliveListed(nodes: seq<Node>)
    ensures ListsAlive(nodes, AliveUpTo(nodes, |nodes|))
  {
    var alive := AliveUpTo(nodes, |nodes|);
    forall k | 0 <= k < |alive| ensures alive[k] < |nodes| && nodes[alive[k]].alive && Rank(nodes, alive[k]) == k {
      AliveAt(nodes, |nodes|, k);
    }
    forall i | 0 <= i < |nodes| && nodes[i].alive ensures Rank(nodes, i) < |alive| && alive[Rank(nodes, i)] == i {
      AliveAtRank(nodes, |nodes|, i);
    }
  }

  /** The first `k` of the nodes that are alive have stored the value. */
  predicate StoredUpTo(before: seq<Node>, now: seq<Node>, k: nat, key: string, value: Value) {
    && |now| == |before|
    && forall i :: 0 <= i < |now| ==>
         now[i] == if before[i].alive && Rank(before, i) < k then Stored(before[i], key, value) else before[i]
  }

  lemma StoredOneMore(before: seq<Node>, alive: seq<nat>, now: seq<Node>, k: nat, key: string, value: Value,
      next: seq<Node>)
    requires ListsAlive(before, alive) && k < |alive| && StoredUpTo(before, now, k, key, value)
    requires next == now[alive[k] := Stored(now[alive[k]], key, value)]
    ensures StoredUpTo(before, next, k + 1, key, value)
  {
    forall i | 0 <= i < |next|
      ensures next[i] == if before[i].alive && Rank(before, i) < k + 1 then Stored(before[i], key, value) else before[i]
    {
      assert before[i].alive && Rank(before, i) == k ==> i == alive[k];
    }
  }

  /** The clocks reported by the first `k` nodes alive. */
  ghost function ReportedBy(nodes: seq<Node>, alive: seq<nat>, key: string, k: nat): set<VectorClock>
    requires ListsAlive(nodes, alive) && k <= |alive|
  {
    set j | 0 <= j < k && StoredClock(nodes[alive[j]].redis, key).Some? :: StoredClock(nodes[alive[j]].redis, key).value
  }

  lemma ReportedOneMore(nodes: seq<Node>, alive: seq<nat>, key: string, k: nat)
    requires ListsAlive(nodes, alive) && k < |alive|
    ensures var vc := StoredClock(nodes[alive[k]].redis, key);
      ReportedBy(nodes, alive, key, k + 1)
      == ReportedBy(nodes, alive, key, k) + if vc.Some? then {vc.value} else {}
  {
  }

  lemma TwoMembers<T>(s: set<T>)
    ensures |s| > 1 <==> exists a, b :: a in s && b in s && a != b
  {
    if s != {} {
      var a :| a in s;
      if |s| > 1 {
        assert |s - {a}| > 0;
        var b :| b in s - {a};
      }
      if b, c :| b in s && c in s && b != c {
        assert {b, c} <= s && |{b, c}| == 2;
        SubsetSize({b, c}, s);
      }
    }
  }

  lemma DifferReported(nodes: seq<Node>, alive: seq<nat>, key: string, r: nat, i: nat)
    requires ListsAlive(nodes, alive) && r <= |alive| && i < |nodes|
    requires Asked(nodes, r, i) && StoredClock(nodes[i].redis, key).Some?
    ensures StoredClock(nodes[i].redis, key).value in ReportedBy(nodes, alive, key, r)
  {
    assert alive[Rank(nodes, i)] == i;
  }

  lemma ReportedAsked(nodes: seq<Node>, alive: seq<nat>, key: string, r: nat, vc: VectorClock) returns (i: nat)
    requires ListsAlive(nodes, alive) && r <= |alive| && vc in ReportedBy(nodes, alive, key, r)
    ensures i < |nodes| && Asked(nodes, r, i) && StoredClock(nodes[i].redis, key) == Some(vc)
  {
    var k :| 0 <= k < r && StoredClock(nodes[alive[k]].redis, key) == Some(vc);
    i := alive[k];
  }

  lemma ReportedDiffer(nodes: seq<Node>, alive: seq<nat>, key: string, r: nat)
    requires ListsAlive(nodes, alive) && r <= |alive|
    ensures |ReportedBy(nodes, alive, key, r)| > 1 <==> ClocksDiffer(nodes, r, key)
  {
    var s := ReportedBy(nodes, alive, key, r);
    TwoMembers(s);
    if |s| > 1 {
      var a, b :| a in s && b in s && a != b;
      var i := ReportedAsked(nodes, alive, key, r, a);
      var j := ReportedAsked(nodes, alive, key, r, b);
    }
    if ClocksDiffer(nodes, r, key) {
      var i, j :| 0 <= i < |nodes| && 0 <= j < |nodes| && Asked(nodes, r, i) && Asked(nodes, r, j)
        && StoredClock(nodes[i].redis, key).Some? && StoredClock(nodes[j].redis, key).Some?
        && StoredClock(nodes[i].redis, key) != StoredClock(nodes[j].redis, key);
      DifferReported(nodes, alive, key, r, i);
      DifferReported(nodes, alive, key, r, j);
    }
  }

  lemma FirstListed(nodes: seq<Node>, alive: seq<nat>)
    requires ListsAlive(nodes, alive) && |alive| > 0
    ensures First(nodes, 0) == alive[0]
  {
  }

  predicate RepairedUpTo(before: seq<Node>, now: seq<Node>, k: nat, key: string, c: Cell, vc: Option<VectorClock>) {
    && |now| == |before|
    && forall i :: 0 <= i < |now| ==>
         now[i] == if before[i].alive && Rank(before, i) < k then before[i].(redis := Put(before[i].redis, key, c, vc))
                   else before[i]
  }

  lemma RepairedOneMore(before: seq<Node>, alive: seq<nat>, now: seq<Node>, k: nat, key: string, c: Cell,
                        vc: Option<VectorClock>, next: seq<Node>)
    requires ListsAlive(before, alive) && k < |alive| && RepairedUpTo(before, now, k, key, c, vc)
    requires next == now[alive[k] := now[alive[k]].(redis := Put(now[alive[k]].redis, key, c, vc))]
    ensures RepairedUpTo(before, next, k + 1, key, c, vc)
  {
    forall i | 0 <= i < |next|
      ensures next[i] == if before[i].alive && Rank(before, i) < k + 1
                         then before[i].(redis := Put(before[i].redis, key, c, vc)) else before[i]
    {
      assert before[i].alive && Rank(before, i) == k ==> i == alive[k];
    }
  }

  lemma RepairedAll(before: seq<Node>, alive: seq<nat>, now: seq<Node>, key: string, c: Cell, vc: Option<VectorClock>)
    requires ListsAlive(before, alive) && RepairedUpTo(before, now, |alive|, key, c, vc)
    ensures now == Repaired(before, key, c, vc)
  {
  }

  class Cluster {
    const nodes: seq<KVSNode>
    const w: nat
    const r: nat

    ghost predicate Valid() {
      r >= 1 && forall i, j :: 0 <= i < j < |nodes| ==> nodes[i] != nodes[j]
    }

    ghost function View(): (v: seq<Node>)
      reads nodes
      ensures |v| == |nodes| && forall i :: 0 <= i < |nodes| ==> v[i] == nodes[i].View()
    {
      seq(|nodes|, i requires 0 <= i < |nodes| reads nodes => nodes[i].View())
    }

    constructor (nodes: seq<KVSNode>, w: nat, r: nat)
      requires r >= 1 && forall i, j :: 0 <= i < j < |nodes| ==> nodes[i] != nodes[j]
      ensures Valid() && this.nodes == nodes && this.w == w && this.r == r
    {
      this.nodes, this.w, this.r := nodes, w, r;
    }

    method AliveNodes() returns (alive: seq<nat>)
      ensures ListsAlive(View(), alive)
    {
      ghost var view := View();
      alive := [];
      for i := 0 to |nodes|
        invariant alive == AliveUpTo(view, i)
      {
        if nodes[i].alive { alive := alive + [i]; }
      }
      AliveListed(view);
    }

    method Store(i: nat, key: string, value: Value)
      requires Valid() && i < |nodes|
      modifies nodes[i]
      ensures View() == old(View())[i := Stored(old(View())[i], key, value)]
    {
      nodes[i].Increment();
      nodes[i].Set(key, Text(value), Some(nodes[i].clock));
    }

    method StoreFirst(alive: seq<nat>, count: nat, key: string, value: Value)
      requires Valid() && count <= |alive| && ListsAlive(View(), alive)
      modifies nodes
      ensures StoredUpTo(old(View()), View(), count, key, value)
    {
      ghost var before := View();
      for k := 0 to count
        invariant StoredUpTo(before, View(), k, key, value)
      {
        ghost var now := View();
        Store(alive[k], key, value);
        StoredOneMore(before, alive, now, k, key, value, View());
      }
    }

    method HintDead(key: string, value: Value)
      requires Valid()
      modifies nodes
      ensures forall i :: 0 <= i < |nodes| ==>
        nodes[i].View() == if old(View())[i].alive then old(View())[i] else Hinted(old(View())[i], key, value)
    {
      ghost var before := View();
      for i := 0 to |nodes|
        invariant forall j :: 0 <= j < |nodes| ==>
          nodes[j].View() == if before[j].alive || i <= j then before[j] else Hinted(before[j], key, value)
      {
        if !nodes[i].alive { nodes[i].StoreHinted(key, value, nodes[i].clock); }
      }
    }

    method Write(key: string, value: Value) returns (ok: bool)
      requires Valid()
      modifies nodes
      ensures (View(), ok) == QuorumStore.Write(old(View()), w, key, value)
    {
      var alive := AliveNodes();
      if |alive| < w { return false; }
      StoreFirst(alive, w, key, value);
      HintDead(key, value);
      ok := true;
      assert View() == QuorumStore.Write(old(View()), w, key, value).0;
    }

    method AskOne(i: nat, key: string, ghost view: seq<Node>) returns (value: Option<Cell>, vc: Option<VectorClock>)
      requires i < |nodes| && view == View()
      ensures i < |view| && value == Lookup(view[i].redis, key) && vc == StoredClock(view[i].redis, key)
    {
      value, vc := nodes[i].Get(key);
    }

    /** Asks the first `r` nodes alive; the clocks they report are collected in a set. */
    method Collect(alive: seq<nat>, key: string, ghost view: seq<Node>) returns (clocks: set<VectorClock>)
      requires r <= |alive| && ListsAlive(view, alive) && view == View()
      ensures clocks == ReportedBy(view, alive, key, r)
    {
      clocks := {};
      for k := 0 to r
        invariant clocks == ReportedBy(view, alive, key, k)
      {
        ReportedOneMore(view, alive, key, k);
        var _, vc := AskOne(alive[k], key, view);
        if vc.Some? { clocks := clocks + {vc.value}; }
      }
    }

    method Ask(alive: seq<nat>, key: string)
      returns (first: Option<Cell>, firstClock: Option<VectorClock>, clocks: set<VectorClock>)
      requires Valid() && r <= |alive| && ListsAlive(View(), alive)
      ensures first == Lookup(nodes[alive[0]].redis, key) && firstClock == StoredClock(nodes[alive[0]].redis, key)
      ensures |clocks| > 1 <==> ClocksDiffer(View(), r, key)
    {
      ghost var view := View();
      first, firstClock := AskOne(alive[0], key, view);
      clocks := Collect(alive, key, view);
      ReportedDiffer(view, alive, key, r);
    }

    method Copy(i: nat, key: string, latest: Cell, vc: Option<VectorClock>)
      requires Valid() && i < |nodes|
      modifies nodes[i]
      ensures View() == old(View())[i := old(View())[i].(redis := Put(old(View())[i].redis, key, latest, vc))]
    {
      nodes[i].Set(key, latest, vc);
    }

    method Repair(alive: seq<nat>, key: string, latest: Cell, vc: Option<VectorClock>)
      requires Valid() && ListsAlive(View(), alive)
      modifies nodes
      ensures View() == Repaired(old(View()), key, latest, vc)
    {
      ghost var before := View();
      for k := 0 to |alive|
        invariant RepairedUpTo(before, View(), k, key, latest, vc)
      {
        ghost var now := View();
        Copy(alive[k], key, latest, vc);
        RepairedOneMore(before, alive, now, k, key, latest, vc, View());
      }
      RepairedAll(before, alive, View(), key, latest, vc);
    }

    method Read(key: string) returns (reply: Reply)
      requires Valid()
      modifies nodes
      ensures (View(), reply) == QuorumStore.Read(old(View()), r, key)
    {
      var alive := AliveNodes();
      if |alive| < r { return QuorumNotMet; }
      FirstListed(View(), alive);
      var first, firstClock, clocks := Ask(alive, key);
      if |clocks| > 1 {
        if first.None? { return Crashed; }
        Repair(alive, key, first.value, firstClock);
      }
      reply := Answer(first);
    }
  }
}
